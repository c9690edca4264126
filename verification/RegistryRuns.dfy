/** Safety of the registry over every run of its operations, in any interleaving. */
module RegistryRuns {
  import opened Field
  import opened Wrappers
  import opened Predicate
  import opened Blob
  import opened Petition
  import opened PetitionInvariant
  import opened Registry

  /** What an outside observer writes down along a run: the records of every published batch and the
      amounts paid out, per petition. */
  datatype Audit = Audit(history: map<Bytes32, seq<seq<Record>>>, paid: map<Bytes32, nat>)

  function PaidBy(d: Deployment, en: PetitionEntry, op: Operation, block: nat): nat {
    match op
    case Resolve(resolver, sub) =>
      var r := ResolvePetition(d, en, resolver, sub, block).result;
      if r.Ok? then r.value.amount + r.value.rebate else 0
    case Expire(caller, gasRebate) =>
      var r := MarkUnresolved(en, caller, gasRebate, block).result;
      if r.Ok? then r.value.amount + r.value.rebate else 0
    case PublishBatch(_, _) => 0
    case Contest(_, _) => 0
  }

  function Recorded(d: Deployment, en: PetitionEntry, hs: seq<seq<Record>>, op: Operation, block: nat): seq<seq<Record>>
  {
    match op
    case PublishBatch(relayer, sub) => if Publish(d, en, relayer, sub, block).result.Ok? then hs + [sub.records] else hs
    case Contest(_, _) => hs
    case Resolve(_, _) => hs
    case Expire(_, _) => hs
  }

  function Track(d: Deployment, w: World, g: Audit, a: Action): Audit {
    match a
    case Tick(_) => g
    case UpdateAlpha(_) => g
    case Register(draft, firstSeen) => (
      match Registration(d, w, draft, firstSeen)
      case Err(_) => g
      case Ok((id, _)) => Audit(g.history[id := []], g.paid[id := 0]))
    case On(id, op) =>
      if id !in w.petitions || id !in g.history || id !in g.paid then g
      else Audit(g.history[id := Recorded(d, w.petitions[id], g.history[id], op, w.block)],
                 g.paid[id := g.paid[id] + PaidBy(d, w.petitions[id], op, w.block)])
  }

  /** The environment: the clock does not run backwards and the blob carrier is binding. */
  ghost predicate Allowed(d: Deployment, w: World, g: Audit, a: Action) {
    match a
    case Tick(block) => w.block <= block
    case UpdateAlpha(_) => true
    case Register(_, _) => true
    case On(id, op) => op.Contest? && id in w.petitions && id in g.history ==>
      Binding(d, op.blobs, w.petitions[id].batches, g.history[id])
  }

  predicate Terminal(s: PetitionState) {
    s == Resolved || s == Unresolved
  }

  ghost predicate EntryConsistent(d: Deployment, en: PetitionEntry, hs: seq<seq<Record>>, paid: nat, block: nat) {
    && Inv(d, en, hs, block)
    && paid == if Terminal(en.record.state) then en.record.bounty else 0
  }

  /** Every petition satisfies its invariant, and has paid its bounty exactly if it has closed. */
  ghost predicate Consistent(d: Deployment, w: World, g: Audit) {
    && g.history.Keys == g.paid.Keys == w.petitions.Keys
    && forall id {:trigger EntryConsistent(d, w.petitions[id], g.history[id], g.paid[id], w.block)} ::
         id in w.petitions ==> EntryConsistent(d, w.petitions[id], g.history[id], g.paid[id], w.block)
  }

  // ----- one step -----

  lemma TickKeeps(d: Deployment, en: PetitionEntry, hs: seq<seq<Record>>, last: nat, block: nat)
    requires Inv(d, en, hs, last) && last <= block
    ensures Inv(d, en, hs, block)
  {
    var k: nat :| Holds(d, en, hs, k, last);
    assert Holds(d, en, hs, k, block);
  }

  lemma {:induction false} IncreasingPairs(s: seq<ClassTag>, i: nat, j: nat)
    requires StrictlyIncreasing(s) && i < j < |s|
    ensures s[i] < s[j]
    decreases j
  {
    if i + 1 < j {
      IncreasingPairs(s, i, j - 1);
    }
  }

  /** A registered petition starts out open for signing, with the empty history. */
  lemma RegistrationHolds(d: Deployment, w: World, draft: Draft, firstSeen: Option<nat>)
    ensures Registration(d, w, draft, firstSeen).Ok? ==>
            var (id, en) := Registration(d, w, draft, firstSeen).value;
            id !in w.petitions && Inv(d, en, [], w.block) && en.record.state == SigningOpen
              && en.record.bounty == draft.bounty
  {
    if Registration(d, w, draft, firstSeen).Ok? {
      var (id, en) := Registration(d, w, draft, firstSeen).value;
      forall i, j | 0 <= i < j < |draft.classSet| ensures draft.classSet[i] < draft.classSet[j] {
        IncreasingPairs(draft.classSet, i, j);
      }
      var hs: seq<seq<Record>> := [];
      assert hs[..0] == [];
      assert Holds(d, en, hs, 0, w.block);
    }
  }

  lemma SteppedInv(d: Deployment, en: PetitionEntry, hs: seq<seq<Record>>, block: nat)
    requires Inv(d, en, hs, block)
    ensures Inv(d, Stepped(en, block), hs, block)
    ensures Terminal(Stepped(en, block).record.state) <==> Terminal(en.record.state)
  {
    var k: nat :| Holds(d, en, hs, k, block);
    SteppedHolds(d, en, hs, k, block, block);
    SettleMonotone(en.record.state, en.record.closeAt, block);
    SettleTerminal(en.record.state, en.record.closeAt, block);
  }

  lemma {:induction false} SettleTerminal(s: PetitionState, closeAt: nat, block: nat)
    ensures Terminal(Settle(s, closeAt, block)) <==> Terminal(s)
    decreases 5 - Rank(s)
  {
    match NextState(s, closeAt, block)
    case None =>
    case Some(next) => SettleTerminal(next, closeAt, block);
  }

  lemma DisputeFailure(d: Deployment, blobs: Blobs, en: PetitionEntry, dispute: Dispute, block: nat)
    requires DisputeBatch(d, blobs, en, dispute, block).result.Err?
    ensures DisputeBatch(d, blobs, en, dispute, block).entry == Stepped(en, block)
  {
  }

  lemma PublishStepKeeps(d: Deployment, en: PetitionEntry, hs: seq<seq<Record>>, paid: nat, relayer: Address,
                         sub: BatchSubmission, block: nat)
    requires IndexableTree(d) && EntryConsistent(d, en, hs, paid, block)
    ensures var o := Publish(d, en, relayer, sub, block);
            EntryConsistent(d, o.entry, if o.result.Ok? then hs + [sub.records] else hs, paid, block)
  {
    SteppedInv(d, en, hs, block);
    if Publish(d, en, relayer, sub, block).result.Ok? {
      PublishHolds(d, en, hs, relayer, sub, block, block);
      PublishSuccess(d, en, relayer, sub, block);
    } else {
      FailedPublishKeepsState(d, en, hs, relayer, sub, block, block);
    }
  }

  lemma DisputeStepKeeps(d: Deployment, en: PetitionEntry, hs: seq<seq<Record>>, paid: nat, dispute: Dispute,
                         blobs: Blobs, block: nat)
    requires EntryConsistent(d, en, hs, paid, block) && Binding(d, blobs, en.batches, hs)
    ensures EntryConsistent(d, DisputeBatch(d, blobs, en, dispute, block).entry, hs, paid, block)
  {
    SteppedInv(d, en, hs, block);
    if DisputeBatch(d, blobs, en, dispute, block).result.Ok? {
      DisputeHolds(d, blobs, en, hs, dispute, block, block);
      DisputeSuccess(d, blobs, en, dispute, block);
    } else {
      DisputeFailure(d, blobs, en, dispute, block);
    }
  }

  lemma OperationKeeps(d: Deployment, en: PetitionEntry, hs: seq<seq<Record>>, paid: nat, op: Operation, block: nat)
    requires IndexableTree(d) && EntryConsistent(d, en, hs, paid, block)
    requires op.Contest? ==> Binding(d, op.blobs, en.batches, hs)
    ensures EntryConsistent(d, Touched(d, en, op, block), Recorded(d, en, hs, op, block),
                            paid + PaidBy(d, en, op, block), block)
  {
    match op
    case PublishBatch(relayer, sub) => PublishStepKeeps(d, en, hs, paid, relayer, sub, block);
    case Contest(dispute, blobs) => DisputeStepKeeps(d, en, hs, paid, dispute, blobs, block);
    case Resolve(resolver, sub) =>
      SteppedInv(d, en, hs, block);
      SettleMonotone(en.record.state, en.record.closeAt, block);
      ResolveHolds(d, en, hs, resolver, sub, block, block);
    case Expire(caller, gasRebate) =>
      SteppedInv(d, en, hs, block);
      SettleMonotone(en.record.state, en.record.closeAt, block);
      UnresolvedHolds(d, en, hs, caller, gasRebate, block, block);
  }

  /** A registry stays consistent when one petition is replaced or added consistently. */
  lemma OneEntryKeeps(d: Deployment, w: World, g: Audit, v: World, h: Audit, id: Bytes32, en: PetitionEntry,
                      hs: seq<seq<Record>>, paid: nat)
    requires Consistent(d, w, g) && EntryConsistent(d, en, hs, paid, w.block)
    requires v.block == w.block && v.petitions == w.petitions[id := en]
    requires h.history == g.history[id := hs] && h.paid == g.paid[id := paid]
    ensures Consistent(d, v, h)
  {
    forall n | n in v.petitions ensures EntryConsistent(d, v.petitions[n], h.history[n], h.paid[n], v.block) {
      if n != id {
        assert EntryConsistent(d, w.petitions[n], g.history[n], g.paid[n], w.block);
      }
    }
  }

  lemma TickStepKeeps(d: Deployment, w: World, g: Audit, block: nat)
    requires Consistent(d, w, g) && w.block <= block
    ensures Consistent(d, w.(block := block), g)
  {
    forall n | n in w.petitions ensures EntryConsistent(d, w.petitions[n], g.history[n], g.paid[n], block) {
      assert EntryConsistent(d, w.petitions[n], g.history[n], g.paid[n], w.block);
      TickKeeps(d, w.petitions[n], g.history[n], w.block, block);
    }
  }

  lemma RegisterStepKeeps(d: Deployment, w: World, g: Audit, draft: Draft, firstSeen: Option<nat>)
    requires Consistent(d, w, g) && Registration(d, w, draft, firstSeen).Ok?
    ensures Consistent(d, Apply(d, w, Register(draft, firstSeen)), Track(d, w, g, Register(draft, firstSeen)))
  {
    RegistrationHolds(d, w, draft, firstSeen);
    var (id, en) := Registration(d, w, draft, firstSeen).value;
    var a := Register(draft, firstSeen);
    OneEntryKeeps(d, w, g, Apply(d, w, a), Track(d, w, g, a), id, en, [], 0);
  }

  /** What an operation on a petition does to registry and audit. */
  lemma OnApplied(d: Deployment, w: World, g: Audit, id: Bytes32, op: Operation)
    requires id in w.petitions && id in g.history && id in g.paid
    ensures var en, hs, paid := w.petitions[id], g.history[id], g.paid[id];
            && Apply(d, w, On(id, op)) == w.(petitions := w.petitions[id := Touched(d, en, op, w.block)])
            && Track(d, w, g, On(id, op))
               == Audit(g.history[id := Recorded(d, en, hs, op, w.block)],
                        g.paid[id := paid + PaidBy(d, en, op, w.block)])
  {
  }

  lemma OnStepKeeps(d: Deployment, w: World, g: Audit, id: Bytes32, op: Operation)
    requires IndexableTree(d) && Consistent(d, w, g) && id in w.petitions && Allowed(d, w, g, On(id, op))
    ensures Consistent(d, Apply(d, w, On(id, op)), Track(d, w, g, On(id, op)))
  {
    OnApplied(d, w, g, id, op);
    TouchedKeeps(d, w, g, Apply(d, w, On(id, op)), Track(d, w, g, On(id, op)), id, op);
  }

  lemma TouchedKeeps(d: Deployment, w: World, g: Audit, v: World, l: Audit, id: Bytes32, op: Operation)
    requires IndexableTree(d) && Consistent(d, w, g) && id in w.petitions && Allowed(d, w, g, On(id, op))
    requires v == w.(petitions := w.petitions[id := Touched(d, w.petitions[id], op, w.block)])
    requires l == Audit(g.history[id := Recorded(d, w.petitions[id], g.history[id], op, w.block)],
                        g.paid[id := g.paid[id] + PaidBy(d, w.petitions[id], op, w.block)])
    ensures Consistent(d, v, l)
  {
    var en, hs, paid := w.petitions[id], g.history[id], g.paid[id];
    assert EntryConsistent(d, en, hs, paid, w.block);
    OperationKeeps(d, en, hs, paid, op, w.block);
    OneEntryKeeps(d, w, g, v, l, id, v.petitions[id], l.history[id], l.paid[id]);
  }

  lemma StepKeeps(d: Deployment, w: World, g: Audit, a: Action)
    requires IndexableTree(d) && Consistent(d, w, g) && Allowed(d, w, g, a)
    ensures Consistent(d, Apply(d, w, a), Track(d, w, g, a))
  {
    match a
    case Tick(block) => TickStepKeeps(d, w, g, block);
    case UpdateAlpha(_) => TickStepKeeps(d, w, g, w.block);
    case Register(draft, firstSeen) =>
      if Registration(d, w, draft, firstSeen).Ok? {
        RegisterStepKeeps(d, w, g, draft, firstSeen);
      }
    case On(id, op) =>
      if id in w.petitions {
        OnStepKeeps(d, w, g, id, op);
      }
  }

  // ----- whole runs -----

  function After(d: Deployment, w: World, actions: seq<Action>): World {
    if |actions| == 0 then w else Apply(d, After(d, w, actions[..|actions| - 1]), actions[|actions| - 1])
  }

  function AuditAfter(d: Deployment, w: World, g: Audit, actions: seq<Action>): Audit {
    if |actions| == 0 then g
    else
      var front := actions[..|actions| - 1];
      Track(d, After(d, w, front), AuditAfter(d, w, g, front), actions[|actions| - 1])
  }

  ghost predicate AllowedRun(d: Deployment, w: World, g: Audit, actions: seq<Action>) {
    |actions| == 0 ||
    (var front := actions[..|actions| - 1];
     && AllowedRun(d, w, g, front)
     && Allowed(d, After(d, w, front), AuditAfter(d, w, g, front), actions[|actions| - 1]))
  }

  /** After every run of register, publish, dispute, resolve, expire and clock ticks, in any order, every
      petition has the roots, counts and trees of the replay of its Active batches, and has paid out its
      bounty exactly if it has closed. */
  lemma {:induction false} EveryRunConsistent(d: Deployment, global: Global, block: nat, actions: seq<Action>)
    requires IndexableTree(d)
    requires AllowedRun(d, World(global, map[], block), Audit(map[], map[]), actions)
    ensures Consistent(d, After(d, World(global, map[], block), actions),
                       AuditAfter(d, World(global, map[], block), Audit(map[], map[]), actions))
  {
    if |actions| != 0 {
      var w, g, front := World(global, map[], block), Audit(map[], map[]), actions[..|actions| - 1];
      EveryRunConsistent(d, global, block, front);
      StepKeeps(d, After(d, w, front), AuditAfter(d, w, g, front), actions[|actions| - 1]);
    }
  }

  // ----- what a step cannot do -----

  /** What an operation may do to a petition. */
  ghost predicate Orderly(x: PetitionEntry, y: PetitionEntry, block: nat) {
    && Rank(x.record.state) <= Rank(y.record.state)
    && (Terminal(x.record.state) ==> y == x)
    && (x.record.closeAt + RESOLUTION_DEADLINE_BLOCKS <= block ==> y.batches == x.batches && y.trees == x.trees)
    && (x.record.closeAt + RESOLUTION_DEADLINE_BLOCKS <= block && y.record.state != Unresolved ==>
        y.record.runningRoot == x.record.runningRoot)
  }

  lemma SteppedOrderly(en: PetitionEntry, block: nat)
    ensures Orderly(en, Stepped(en, block), block)
    ensures Terminal(en.record.state) ==> Stepped(en, block) == en
    ensures Stepped(en, block).record.state == SigningOpen ==> block < en.record.closeAt && !Terminal(en.record.state)
    ensures Stepped(en, block).record.state == DisputeWindow ==> !Terminal(en.record.state)
    ensures Stepped(en, block).record.state == Unresolved ==> en.record.state == Unresolved
  {
    SettleMonotone(en.record.state, en.record.closeAt, block);
    SettleTerminal(en.record.state, en.record.closeAt, block);
  }

  /** Every operation on a petition is orderly: the lifecycle never moves back, a closed petition stays as
      it is, and once the resolution deadline has passed batches, trees and running root are frozen, up to
      the tombstone of an expiring petition. */
  lemma OperationOrderly(d: Deployment, en: PetitionEntry, hs: seq<seq<Record>>, op: Operation, block: nat)
    requires IndexableTree(d) && Inv(d, en, hs, block)
    ensures Orderly(en, Touched(d, en, op, block), block)
  {
    SteppedOrderly(en, block);
    match op
    case PublishBatch(relayer, sub) =>
      if Publish(d, en, relayer, sub, block).result.Ok? {
        PublishSuccess(d, en, relayer, sub, block);
      } else {
        FailedPublishKeepsState(d, en, hs, relayer, sub, block, block);
      }
    case Contest(dispute, blobs) =>
      if DisputeBatch(d, blobs, en, dispute, block).result.Ok? {
        DisputeSuccess(d, blobs, en, dispute, block);
      } else {
        DisputeFailure(d, blobs, en, dispute, block);
      }
    case Resolve(resolver, sub) => ResolveHolds(d, en, hs, resolver, sub, block, block);
    case Expire(caller, gasRebate) => UnresolvedHolds(d, en, hs, caller, gasRebate, block, block);
  }
}
