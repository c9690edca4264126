/** The transfer agent's hand-out tree: one aggregate note is split, transfer by transfer, into one note per
    order of the day. */
module HandOut {
  import opened Merkle
  import opened Field
  import opened Wrappers

  const LOCK_HOLD: u64 := 2

  type ViewingKey = nat

  datatype LockOpening = LockOpening(reason: u64, releaseAfter: u64, claimParty: Fr)

  const UNLOCKED: LockOpening := LockOpening(0, 0, 0)

  datatype Order = Order(owner: Fr, vpk: ViewingKey, units: u64, holdUntil: Option<u64>)
  datatype Output = Output(owner: Fr, units: u64, opening: LockOpening, vpk: ViewingKey)
  datatype Source = Aggregate | OutputOf(transfer: nat, index: nat)
  datatype Transfer = Transfer(source: Source, first: Output, second: Output)

  /** The agent's own owner value and viewing key. */
  datatype Agent = Agent(owner: Fr, vpk: ViewingKey)

  function Note(o: Order): Output {
    Output(o.owner, o.units, if o.holdUntil.Some? then LockOpening(LOCK_HOLD, o.holdUntil.value, 0) else UNLOCKED,
           o.vpk)
  }

  function AgentNote(a: Agent, units: u64): Output {
    Output(a.owner, units, UNLOCKED, a.vpk)
  }

  /** A note pays the order's units to its owner, held until the date given or free at once; the agent's own
      notes are free. */
  lemma NoteTerms(a: Agent, o: Order, units: u64)
    ensures Note(o).owner == o.owner && Note(o).units == o.units && Note(o).vpk == o.vpk
    ensures Note(o).opening.reason == if o.holdUntil.Some? then 2 else 0
    ensures Note(o).opening.releaseAfter == (if o.holdUntil.Some? then o.holdUntil.value else 0)
    ensures Note(o).opening.claimParty == 0
    ensures AgentNote(a, units).owner == a.owner && AgentNote(a, units).vpk == a.vpk
    ensures AgentNote(a, units).units == units && AgentNote(a, units).opening == LockOpening(0, 0, 0)
  {
  }

  function Total(orders: seq<Order>): nat {
    if |orders| == 0 then 0 else Total(orders[..|orders| - 1]) + orders[|orders| - 1].units
  }

  function Notes(orders: seq<Order>): (ns: seq<Output>)
    ensures |ns| == |orders|
  {
    seq(|orders|, i requires 0 <= i < |orders| => Note(orders[i]))
  }

  // ----- what a hand-out must achieve, independent of how it is planned -----

  type Plan = seq<Transfer>

  ghost predicate Earlier(s: Source, n: nat) {
    s.OutputOf? ==> s.transfer < n && s.index < 2
  }

  function OutputAt(plan: Plan, transfer: nat, index: nat): Output
    requires transfer < |plan|
  {
    if index == 0 then plan[transfer].first else plan[transfer].second
  }

  /** Units held by a source: the orders' total for the aggregate note, else those of the named output. */
  function UnitsOf(plan: Plan, s: Source, total: nat): nat
    requires Earlier(s, |plan|)
  {
    if s.Aggregate? then total else OutputAt(plan, s.transfer, s.index).units
  }

  /** Spent by the agent: the aggregate note, or an unlocked note of its own. */
  ghost predicate Spendable(a: Agent, plan: Plan, s: Source)
    requires Earlier(s, |plan|)
  {
    s.OutputOf? ==> OutputAt(plan, s.transfer, s.index) == AgentNote(a, OutputAt(plan, s.transfer, s.index).units)
  }

  /** Parents first; every transfer spends a note of the agent and hands on all its units. */
  ghost predicate Funded(a: Agent, plan: Plan, total: nat) {
    forall i {:trigger plan[i]} :: 0 <= i < |plan| ==>
      && Earlier(plan[i].source, i)
      && Spendable(a, plan, plan[i].source)
      && plan[i].first.units + plan[i].second.units == UnitsOf(plan, plan[i].source, total)
  }

  ghost predicate Distinct(ss: seq<Source>) {
    forall i, j :: 0 <= i < j < |ss| ==> ss[i] != ss[j]
  }

  function Sources(plan: Plan): seq<Source> {
    seq(|plan|, i requires 0 <= i < |plan| => plan[i].source)
  }

  /** The outputs of the first `n` transfers that none of `spent` names. */
  function Unspent(plan: Plan, spent: seq<Source>, n: nat): multiset<Output>
    requires n <= |plan|
  {
    if n == 0 then multiset{}
    else
      Unspent(plan, spent, n - 1)
      + (if OutputOf(n - 1, 0) in spent then multiset{} else multiset{plan[n - 1].first})
      + (if OutputOf(n - 1, 1) in spent then multiset{} else multiset{plan[n - 1].second})
  }

  /** The round a transfer can land in: one after the transfer that creates its source. */
  function Round(plan: Plan, i: nat): nat
    requires i < |plan|
    decreases i
  {
    var s := plan[i].source;
    if s.OutputOf? && s.transfer < i then 1 + Round(plan, s.transfer) else 0
  }

  /** The orders' notes, and the zero-value change of a lone order. */
  function Paid(a: Agent, orders: seq<Order>): multiset<Output> {
    multiset(Notes(orders)) + if |orders| == 1 then multiset{AgentNote(a, 0)} else multiset{}
  }

  /** Rounds needed are at most log2 of the orders, rounded up, and notes are paid in the last one or the one before. */
  ghost predicate Timely(plan: Plan, spent: seq<Source>, i: nat, n: nat)
    requires i < |plan|
  {
    && Pow2(Round(plan, i)) < n
    && (OutputOf(i, 0) !in spent || OutputOf(i, 1) !in spent ==> n < 4 * Pow2(Round(plan, i)))
  }

  ghost predicate AllTimely(plan: Plan, spent: seq<Source>, n: nat) {
    forall i {:trigger plan[i]} :: 0 <= i < |plan| ==> Timely(plan, spent, i, n)
  }

  // ----- planning -----

  /** A source still to be split among a group of orders. */
  datatype Group = Group(source: Source, orders: seq<Order>)

  function Half(a: Agent, part: seq<Order>): Output
    requires Total(part) < TWO_64
  {
    if |part| == 1 then Note(part[0]) else AgentNote(a, Total(part))
  }

  function Queued(part: seq<Order>, transfer: nat, index: nat): seq<Group> {
    if |part| == 1 then [] else [Group(OutputOf(transfer, index), part)]
  }

  function Planned(a: Agent, g: Group): Transfer
    requires |g.orders| >= 1 && Total(g.orders) < TWO_64
  {
    if |g.orders| == 1 then Transfer(g.source, Note(g.orders[0]), AgentNote(a, 0))
    else
      var m := |g.orders| / 2;
      TotalSplit(g.orders, m);
      Transfer(g.source, Half(a, g.orders[..m]), Half(a, g.orders[m..]))
  }

  function Enqueued(g: Group, transfer: nat): seq<Group> {
    if |g.orders| <= 1 then []
    else Queued(g.orders[..|g.orders| / 2], transfer, 0) + Queued(g.orders[|g.orders| / 2..], transfer, 1)
  }

  lemma {:induction false} TotalSplit(orders: seq<Order>, m: nat)
    requires m <= |orders|
    ensures Total(orders) == Total(orders[..m]) + Total(orders[m..])
    decreases |orders|
  {
    if m < |orders| {
      var n := |orders| - 1;
      TotalSplit(orders[..n], m);
      assert orders[..n][..m] == orders[..m] && orders[..n][m..] == orders[m..][..n - m];
    } else {
      assert orders[..m] == orders;
    }
  }

  // ----- the invariant of the queue -----

  function Need(g: Group): nat {
    if |g.orders| <= 1 then 1 else |g.orders| - 1
  }

  function Needed(queue: seq<Group>): nat {
    if |queue| == 0 then 0 else Need(queue[0]) + Needed(queue[1..])
  }

  function Pending(a: Agent, queue: seq<Group>): multiset<Output> {
    if |queue| == 0 then multiset{} else Paid(a, queue[0].orders) + Pending(a, queue[1..])
  }

  lemma {:induction false} QueueConcat(a: Agent, q: seq<Group>, r: seq<Group>)
    ensures Needed(q + r) == Needed(q) + Needed(r) && Pending(a, q + r) == Pending(a, q) + Pending(a, r)
  {
    if |q| == 0 {
      assert q + r == r;
    } else {
      assert (q + r)[1..] == q[1..] + r;
      QueueConcat(a, q[1..], r);
    }
  }

  /** All sources, of planned transfers and then of waiting groups. */
  function AllSources(plan: Plan, queue: seq<Group>): seq<Source> {
    Sources(plan) + seq(|queue|, i requires 0 <= i < |queue| => queue[i].source)
  }

  function NextRound(plan: Plan, s: Source): nat
    requires Earlier(s, |plan|)
  {
    if s.OutputOf? then 1 + Round(plan, s.transfer) else 0
  }

  /** A waiting group: its source is in the plan and holds its total, and its size is as halving leaves it. */
  ghost predicate Waits(a: Agent, orders: seq<Order>, plan: Plan, g: Group) {
    && |g.orders| >= 1 && Total(g.orders) < TWO_64
    && Earlier(g.source, |plan|) && Spendable(a, plan, g.source)
    && Total(g.orders) == UnitsOf(plan, g.source, Total(orders))
    && (|orders| > 1 ==> |g.orders| > 1 && Halved(|orders|, |g.orders|, NextRound(plan, g.source)))
    && (|g.orders| == 1 ==> |orders| == 1)
  }

  ghost predicate Halved(n: nat, size: nat, round: nat) {
    size >= 1 && (size - 1) * Pow2(round) < n < (size + 1) * Pow2(round)
  }

  ghost predicate PlanInv(a: Agent, orders: seq<Order>, plan: Plan, queue: seq<Group>) {
    && Total(orders) < TWO_64
    && AllWait(a, orders, plan, queue)
    && Funded(a, plan, Total(orders))
    && Distinct(AllSources(plan, queue))
    && |plan| + Needed(queue) == (if |orders| == 0 then 0 else if |orders| == 1 then 1 else |orders| - 1)
    && Unspent(plan, AllSources(plan, queue), |plan|) + Pending(a, queue) == Paid(a, orders)
    && (|orders| > 1 ==> AllTimely(plan, AllSources(plan, queue), |orders|))
  }

  lemma {:induction false} RoundStays(plan: Plan, t: Transfer, i: nat)
    requires i < |plan|
    ensures Round(plan + [t], i) == Round(plan, i)
    decreases i
  {
    var s := plan[i].source;
    if s.OutputOf? && s.transfer < i {
      RoundStays(plan, t, s.transfer);
    }
  }

  lemma {:induction false} UnspentStays(plan: Plan, t: Transfer, spent: seq<Source>, more: seq<Source>, n: nat)
    requires n <= |plan| && forall s :: s in more ==> s.OutputOf? && s.transfer >= n
    ensures Unspent(plan + [t], spent + more, n) == Unspent(plan, spent, n)
  {
    if n != 0 {
      UnspentStays(plan, t, spent, more, n - 1);
    }
  }

  lemma {:induction false} HalvedStep(n: nat, size: nat, round: nat)
    requires Halved(n, size, round) && size >= 2
    ensures Halved(n, size / 2, round + 1) && Halved(n, size - size / 2, round + 1)
    ensures Pow2(round) < n
    ensures size <= 3 ==> n < 4 * Pow2(round)
  {
    var p, k := Pow2(round), size / 2;
    HalfKeeps(n, size, k, p);
    HalfKeeps(n, size, size - k, p);
    MulMono(1, size - 1, p);
    if size <= 3 {
      MulMono(size + 1, 4, p);
    }
  }

  lemma {:induction false} HalfKeeps(n: nat, size: nat, k: nat, p: nat)
    requires 1 <= k && size / 2 <= k <= (size + 1) / 2 && (size - 1) * p < n < (size + 1) * p
    ensures (k - 1) * (2 * p) < n < (k + 1) * (2 * p)
  {
    MulMono(2 * (k - 1), size - 1, p);
    MulMono(size + 1, 2 * (k + 1), p);
    MulDouble(k - 1, p);
    MulDouble(k + 1, p);
  }

  // ----- one turn of the queue -----

  function NewSources(g: Group, n: nat): seq<Source> {
    seq(|Enqueued(g, n)|, i requires 0 <= i < |Enqueued(g, n)| => Enqueued(g, n)[i].source)
  }

  lemma {:induction false} SourcesStep(a: Agent, plan: Plan, queue: seq<Group>)
    requires |queue| > 0 && |queue[0].orders| >= 1 && Total(queue[0].orders) < TWO_64
    ensures AllSources(plan + [Planned(a, queue[0])], queue[1..] + Enqueued(queue[0], |plan|))
         == AllSources(plan, queue) + NewSources(queue[0], |plan|)
  {
  }

  ghost predicate AllEarlier(ss: seq<Source>, n: nat) {
    forall i :: 0 <= i < |ss| ==> Earlier(ss[i], n)
  }

  lemma {:induction false} SourcesEarlier(plan: Plan, queue: seq<Group>)
    requires forall i {:trigger plan[i]} :: 0 <= i < |plan| ==> Earlier(plan[i].source, i)
    requires forall i {:trigger queue[i]} :: 0 <= i < |queue| ==> Earlier(queue[i].source, |plan|)
    ensures AllEarlier(AllSources(plan, queue), |plan|)
  {
    var known := AllSources(plan, queue);
    forall i | 0 <= i < |known| ensures Earlier(known[i], |plan|) {
      if i < |plan| {
        assert plan[i].source == known[i];
      } else {
        assert queue[i - |plan|].source == known[i];
      }
    }
  }

  lemma {:induction false} NewSourcesDistinct(g: Group, n: nat)
    ensures Distinct(NewSources(g, n))
    ensures forall i :: 0 <= i < |NewSources(g, n)| ==>
      NewSources(g, n)[i].OutputOf? && NewSources(g, n)[i].transfer == n
  {
  }

  lemma {:induction false} DistinctConcat(known: seq<Source>, added: seq<Source>, n: nat)
    requires Distinct(known) && AllEarlier(known, n) && Distinct(added)
    requires forall i :: 0 <= i < |added| ==> added[i].OutputOf? && added[i].transfer == n
    ensures Distinct(known + added)
  {
  }

  lemma {:induction false} WaitsStays(a: Agent, orders: seq<Order>, plan: Plan, t: Transfer, g: Group)
    requires Waits(a, orders, plan, g)
    ensures Waits(a, orders, plan + [t], g)
  {
    if g.source.OutputOf? {
      RoundStays(plan, t, g.source.transfer);
    }
  }

  /** The half that is not paid at once waits with the agent's new note. */
  lemma {:induction false} HalfWaits(a: Agent, orders: seq<Order>, plan: Plan, g: Group, h: Group)
    requires Waits(a, orders, plan, g) && |g.orders| > 1 && h in Enqueued(g, |plan|)
    ensures Waits(a, orders, plan + [Planned(a, g)], h)
  {
    var m, t := |g.orders| / 2, Planned(a, g);
    TotalSplit(g.orders, m);
    if |orders| > 1 {
      HalvedStep(|orders|, |g.orders|, NextRound(plan, g.source));
      LastRound(plan, t);
    }
  }

  lemma {:induction false} LastRound(plan: Plan, t: Transfer)
    requires Earlier(t.source, |plan|)
    ensures Round(plan + [t], |plan|) == NextRound(plan, t.source)
  {
    if t.source.OutputOf? {
      RoundStays(plan, t, t.source.transfer);
    }
  }

  lemma {:induction false} FundedStep(a: Agent, orders: seq<Order>, plan: Plan, g: Group)
    requires Funded(a, plan, Total(orders)) && Waits(a, orders, plan, g)
    ensures Funded(a, plan + [Planned(a, g)], Total(orders))
  {
    var t := Planned(a, g);
    TotalSplit(g.orders, |g.orders| / 2);
    assert |g.orders| == 1 ==> Total(g.orders) == g.orders[0].units;
    TotalOfOne(g.orders[..|g.orders| / 2]);
    TotalOfOne(g.orders[|g.orders| / 2..]);
    forall i | 0 <= i < |plan + [t]| ensures
      var p := plan + [t];
      && Earlier(p[i].source, i) && Spendable(a, p, p[i].source)
      && p[i].first.units + p[i].second.units == UnitsOf(p, p[i].source, Total(orders))
    {
      if i < |plan| {
        assert plan[i] == (plan + [t])[i];
      }
    }
  }

  lemma {:induction false} TotalOfOne(part: seq<Order>)
    ensures |part| == 1 ==> Total(part) == part[0].units
  {
  }

  lemma {:induction false} NeededStep(a: Agent, g: Group, n: nat)
    requires |g.orders| >= 1
    ensures 1 + Needed(Enqueued(g, n)) == Need(g)
  {
    if |g.orders| > 1 {
      var m := |g.orders| / 2;
      var l, r := Queued(g.orders[..m], n, 0), Queued(g.orders[m..], n, 1);
      QueueConcat(a, l, r);
      QueuedPart(a, g.orders[..m], n, 0);
      QueuedPart(a, g.orders[m..], n, 1);
    }
  }

  function PaidAtOnce(part: seq<Order>): multiset<Output> {
    if |part| == 1 then multiset{Note(part[0])} else multiset{}
  }

  /** A single order is paid at once; a larger part waits whole. */
  lemma {:induction false} QueuedPart(a: Agent, part: seq<Order>, n: nat, index: nat)
    requires |part| >= 1
    ensures Needed(Queued(part, n, index)) == |part| - 1
    ensures PaidAtOnce(part) + Pending(a, Queued(part, n, index)) == multiset(Notes(part))
  {
    if |part| == 1 {
      assert Notes(part) == [Note(part[0])];
    } else {
      assert Queued(part, n, index)[1..] == [];
    }
  }

  /** The outputs of a transfer that are not split again. */
  function Kept(g: Group, t: Transfer, n: nat): multiset<Output> {
    (if OutputOf(n, 0) in NewSources(g, n) then multiset{} else multiset{t.first})
    + (if OutputOf(n, 1) in NewSources(g, n) then multiset{} else multiset{t.second})
  }

  lemma {:induction false} NewSourcesAre(g: Group, n: nat)
    requires |g.orders| > 1
    ensures OutputOf(n, 0) in NewSources(g, n) <==> |g.orders| / 2 != 1
    ensures OutputOf(n, 1) in NewSources(g, n) <==> |g.orders| - |g.orders| / 2 != 1
  {
    var e, s, m := Enqueued(g, n), NewSources(g, n), |g.orders| / 2;
    assert forall i :: 0 <= i < |e| ==> s[i] == e[i].source;
    if m != 1 {
      assert s[0] == OutputOf(n, 0);
    }
    if |g.orders| - m != 1 {
      assert s[|e| - 1] == OutputOf(n, 1);
    }
  }

  /** A group of several: the outputs not split again are the notes of its single halves. */
  lemma {:induction false} KeptHalves(a: Agent, g: Group, n: nat)
    requires |g.orders| > 1 && Total(g.orders) < TWO_64
    ensures var l, r := g.orders[..|g.orders| / 2], g.orders[|g.orders| / 2..];
            Kept(g, Planned(a, g), n) == PaidAtOnce(l) + PaidAtOnce(r)
  {
    NewSourcesAre(g, n);
  }

  lemma {:induction false} Interchange(a: multiset<Output>, b: multiset<Output>, c: multiset<Output>,
                                       d: multiset<Output>)
    ensures (a + b) + (c + d) == (a + c) + (b + d)
  {
  }

  lemma {:induction false} PendingStep(a: Agent, g: Group, n: nat)
    requires |g.orders| >= 1 && Total(g.orders) < TWO_64
    ensures Kept(g, Planned(a, g), n) + Pending(a, Enqueued(g, n)) == Paid(a, g.orders)
  {
    if |g.orders| == 1 {
      assert Notes(g.orders) == [Note(g.orders[0])];
    } else {
      var l, r := g.orders[..|g.orders| / 2], g.orders[|g.orders| / 2..];
      KeptHalves(a, g, n);
      PendingHalves(a, l, r, n);
      assert Notes(g.orders) == Notes(l) + Notes(r);
    }
  }

  lemma {:induction false} PendingHalves(a: Agent, l: seq<Order>, r: seq<Order>, n: nat)
    requires |l| >= 1 && |r| >= 1
    ensures (PaidAtOnce(l) + PaidAtOnce(r)) + Pending(a, Queued(l, n, 0) + Queued(r, n, 1))
      == multiset(Notes(l)) + multiset(Notes(r))
  {
    QueueConcat(a, Queued(l, n, 0), Queued(r, n, 1));
    QueuedPart(a, l, n, 0);
    QueuedPart(a, r, n, 1);
    Interchange(PaidAtOnce(l), PaidAtOnce(r), Pending(a, Queued(l, n, 0)), Pending(a, Queued(r, n, 1)));
  }

  lemma {:induction false} UnspentStep(plan: Plan, t: Transfer, known: seq<Source>, g: Group)
    requires AllEarlier(known, |plan|)
    ensures Unspent(plan + [t], known + NewSources(g, |plan|), |plan| + 1)
      == Unspent(plan, known, |plan|) + Kept(g, t, |plan|)
  {
    var added := NewSources(g, |plan|);
    NewSourcesDistinct(g, |plan|);
    UnspentStays(plan, t, known, added, |plan|);
    assert OutputOf(|plan|, 0) !in known && OutputOf(|plan|, 1) !in known;
  }

  lemma {:induction false} TimelyStays(plan: Plan, t: Transfer, known: seq<Source>, added: seq<Source>, i: nat, n: nat)
    requires i < |plan| && Timely(plan, known, i, n)
    ensures Timely(plan + [t], known + added, i, n)
  {
    RoundStays(plan, t, i);
  }

  lemma {:induction false} TimelyLast(a: Agent, orders: seq<Order>, plan: Plan, known: seq<Source>, g: Group)
    requires Waits(a, orders, plan, g) && |orders| > 1 && AllEarlier(known, |plan|)
    ensures Timely(plan + [Planned(a, g)], known + NewSources(g, |plan|), |plan|, |orders|)
  {
    LastRound(plan, Planned(a, g));
    HalvedStep(|orders|, |g.orders|, NextRound(plan, g.source));
    NewSourcesAre(g, |plan|);
  }

  ghost predicate AllWait(a: Agent, orders: seq<Order>, plan: Plan, queue: seq<Group>) {
    forall i {:trigger queue[i]} :: 0 <= i < |queue| ==> Waits(a, orders, plan, queue[i])
  }

  lemma {:induction false} WaitStep(a: Agent, orders: seq<Order>, plan: Plan, queue: seq<Group>)
    requires AllWait(a, orders, plan, queue) && |queue| > 0
    ensures |queue[0].orders| >= 1 && Total(queue[0].orders) < TWO_64
    ensures AllWait(a, orders, plan + [Planned(a, queue[0])], queue[1..] + Enqueued(queue[0], |plan|))
  {
    var g, rest := queue[0], queue[1..];
    assert Waits(a, orders, plan, g);
    var t, q := Planned(a, g), rest + Enqueued(g, |plan|);
    forall i | 0 <= i < |q| ensures Waits(a, orders, plan + [t], q[i]) {
      if i < |rest| {
        assert q[i] == queue[i + 1];
        WaitsStays(a, orders, plan, t, q[i]);
      } else {
        assert q[i] == Enqueued(g, |plan|)[i - |rest|];
        HalfWaits(a, orders, plan, g, q[i]);
      }
    }
  }

  lemma {:induction false} TimelyStep(a: Agent, orders: seq<Order>, plan: Plan, known: seq<Source>, g: Group)
    requires AllTimely(plan, known, |orders|) && Waits(a, orders, plan, g) && |orders| > 1 && AllEarlier(known, |plan|)
    ensures AllTimely(plan + [Planned(a, g)], known + NewSources(g, |plan|), |orders|)
  {
    var t := Planned(a, g);
    forall i | 0 <= i < |plan + [t]| ensures Timely(plan + [t], known + NewSources(g, |plan|), i, |orders|) {
      if i < |plan| {
        assert plan[i] == (plan + [t])[i];
        TimelyStays(plan, t, known, NewSources(g, |plan|), i, |orders|);
      } else {
        TimelyLast(a, orders, plan, known, g);
      }
    }
  }

  /** What is paid and what is still to be paid stay the day's orders. */
  lemma {:induction false} PaidStep(a: Agent, plan: Plan, queue: seq<Group>, known: seq<Source>)
    requires |queue| > 0 && |queue[0].orders| >= 1 && Total(queue[0].orders) < TWO_64 && AllEarlier(known, |plan|)
    ensures Unspent(plan + [Planned(a, queue[0])], known + NewSources(queue[0], |plan|), |plan| + 1)
          + Pending(a, queue[1..] + Enqueued(queue[0], |plan|))
         == Unspent(plan, known, |plan|) + Pending(a, queue)
    ensures Needed(queue[1..] + Enqueued(queue[0], |plan|)) == Needed(queue) - 1
  {
    var g, rest := queue[0], queue[1..];
    QueueConcat(a, rest, Enqueued(g, |plan|));
    NeededStep(a, g, |plan|);
    PendingStep(a, g, |plan|);
    UnspentStep(plan, Planned(a, g), known, g);
  }

  lemma {:induction false} QueueStep(a: Agent, orders: seq<Order>, plan: Plan, queue: seq<Group>)
    requires PlanInv(a, orders, plan, queue) && |queue| > 0
    ensures |queue[0].orders| >= 1 && Total(queue[0].orders) < TWO_64
    ensures PlanInv(a, orders, plan + [Planned(a, queue[0])], queue[1..] + Enqueued(queue[0], |plan|))
    ensures Needed(queue[1..] + Enqueued(queue[0], |plan|)) == Needed(queue) - 1
  {
    WaitStep(a, orders, plan, queue);
    var g, known := queue[0], AllSources(plan, queue);
    assert Waits(a, orders, plan, g);
    SourcesStep(a, plan, queue);
    SourcesEarlier(plan, queue);
    NewSourcesDistinct(g, |plan|);
    DistinctConcat(known, NewSources(g, |plan|), |plan|);
    PaidStep(a, plan, queue, known);
    FundedStep(a, orders, plan, g);
    if |orders| > 1 {
      TimelyStep(a, orders, plan, known, g);
    }
  }

  lemma {:induction false} QueueStart(a: Agent, orders: seq<Order>)
    requires Total(orders) < TWO_64 && |orders| > 0
    ensures PlanInv(a, orders, [], [Group(Aggregate, orders)])
  {
    var q := [Group(Aggregate, orders)];
    assert q[1..] == [];
    assert Pow2(0) == 1;
  }

  method Sum(part: seq<Order>) returns (units: u64)
    requires Total(part) < TWO_64
    ensures units == Total(part)
  {
    units := 0;
    for i := 0 to |part|
      invariant units == Total(part[..i])
    {
      assert part[..i + 1][..i] == part[..i];
      TotalSplit(part, i + 1);
      units := units + part[i].units;
    }
    assert part[..|part|] == part;
  }

  /** N orders take N - 1 transfers, a lone order one. The plan can be carried out in order: each source is the
      aggregate note or an earlier output, the agent's own and unlocked, is spent once, and its units are handed
      on in full. What is left unspent is exactly the orders' notes with their holds, each once. */
  method PlanHandOut(a: Agent, orders: seq<Order>) returns (plan: Plan)
    requires Total(orders) < TWO_64
    ensures |plan| == (if |orders| == 0 then 0 else if |orders| == 1 then 1 else |orders| - 1)
    ensures Funded(a, plan, Total(orders)) && Distinct(Sources(plan))
    ensures Unspent(plan, Sources(plan), |plan|) == Paid(a, orders)
    ensures |orders| > 1 ==> AllTimely(plan, Sources(plan), |orders|)
  {
    plan := [];
    var queue: seq<Group> := [];
    if |orders| != 0 {
      queue := [Group(Aggregate, orders)];
      QueueStart(a, orders);
    }
    while |queue| > 0
      invariant PlanInv(a, orders, plan, queue)
      decreases Needed(queue)
    {
      var group, transfer := queue[0], |plan|;
      assert Waits(a, orders, plan, group);
      QueueStep(a, orders, plan, queue);
      var planned, queued := PlanGroup(a, group, transfer);
      plan, queue := plan + [planned], queue[1..] + queued;
    }
    PlanDone(a, orders, plan);
  }

  lemma {:induction false} PlanDone(a: Agent, orders: seq<Order>, plan: Plan)
    requires PlanInv(a, orders, plan, [])
    ensures Distinct(Sources(plan)) && Unspent(plan, Sources(plan), |plan|) == Paid(a, orders)
    ensures |orders| > 1 ==> AllTimely(plan, Sources(plan), |orders|)
  {
    assert AllSources(plan, []) == Sources(plan);
  }

  /** The transfer of one group, and what it leaves to split. */
  method PlanGroup(a: Agent, g: Group, transfer: nat) returns (planned: Transfer, queued: seq<Group>)
    requires |g.orders| >= 1 && Total(g.orders) < TWO_64
    ensures planned == Planned(a, g) && queued == Enqueued(g, transfer)
  {
    var Group(source, group) := g;
    if |group| == 1 {
      return Transfer(source, Note(group[0]), AgentNote(a, 0)), [];
    }
    TotalSplit(group, |group| / 2);
    var first, left := PlanHalf(a, group[..|group| / 2], transfer, 0);
    var second, right := PlanHalf(a, group[|group| / 2..], transfer, 1);
    return Transfer(source, first, second), left + right;
  }

  /** One half of a group: a single order is paid, several get a note of the agent that is queued again. */
  method PlanHalf(a: Agent, part: seq<Order>, transfer: nat, index: nat) returns (output: Output, queued: seq<Group>)
    requires Total(part) < TWO_64
    ensures output == Half(a, part) && queued == Queued(part, transfer, index)
  {
    if |part| == 1 {
      return Note(part[0]), [];
    }
    var units := Sum(part);
    return AgentNote(a, units), [Group(OutputOf(transfer, index), part)];
  }
}
