/** The transfer agent's attestation rounds: which owner values are due, which investors count toward the caps,
    who is admitted, and how the batch is padded and cut into parts; and the rounding remainder. */
module Attestation {
  import opened Field
  import opened Wrappers

  const ATTESTATION_PART: nat := 16
  const ATTESTATION_PERIOD: nat := 30
  const ATTESTATION_OVERLAP: nat := 3
  const EPOCH_SECONDS: nat := 86400
  const MULTIPLIER_SCALE: nat := 1_000_000_000_000_000_000

  type InvestorId = string
  type Jurisdiction = string
  type Address = nat

  datatype Holder = Agent | Padding | Investor(id: InvestorId)
  datatype AttestationRecord = AttestationRecord(owner: Fr, generation: nat, expiresAt: nat)
  datatype RegisterEntry = RegisterEntry(units: u64, spent: bool, holder: Option<Holder>)
  datatype Env = Env(epoch: nat, minAcceptedGeneration: nat)

  // ----- caps -----

  datatype JurisdictionCap = JurisdictionCap(jurisdiction: Jurisdiction, cap: nat)

  /** The fund's caps, jurisdictions in key order, and where each verified investor is. */
  datatype Caps = Caps(maxInvestors: Option<nat>, byJurisdiction: seq<JurisdictionCap>,
                       jurisdictions: map<InvestorId, Jurisdiction>)

  datatype AgentError = CapReached(cap: nat) | JurisdictionCapReached(jurisdiction: Jurisdiction, cap: nat)
    | UnknownOwner(owner: Fr) | UnknownPublicHolder(address: Address)

  function Max(a: nat, b: nat): nat {
    if a < b then b else a
  }

  function Located(c: Caps, ids: set<InvestorId>, j: Jurisdiction): set<InvestorId> {
    set id | id in ids && id in c.jurisdictions && c.jurisdictions[id] == j
  }

  /** The overall count passes the cap, and is not merely left where it was. */
  predicate PassesOverall(c: Caps, before: set<InvestorId>, counted: set<InvestorId>) {
    c.maxInvestors.Some? && |counted| > Max(|before|, c.maxInvestors.value)
  }

  predicate PassesLocal(c: Caps, before: set<InvestorId>, counted: set<InvestorId>, i: nat)
    requires i < |c.byJurisdiction|
  {
    var jc := c.byJurisdiction[i];
    |Located(c, counted, jc.jurisdiction)| > Max(|Located(c, before, jc.jurisdiction)|, jc.cap)
  }

  /** Some cap is passed that `before` does not already pass by as much. */
  ghost predicate PassesACap(c: Caps, before: set<InvestorId>, counted: set<InvestorId>) {
    PassesOverall(c, before, counted)
    || exists i {:trigger PassesLocal(c, before, counted, i)} ::
         0 <= i < |c.byJurisdiction| && PassesLocal(c, before, counted, i)
  }

  method CapRefusal(c: Caps, before: set<InvestorId>, counted: set<InvestorId>) returns (r: Option<AgentError>)
    ensures r.Some? <==> PassesACap(c, before, counted)
    ensures PassesOverall(c, before, counted) ==> r == Some(CapReached(c.maxInvestors.value))
    ensures !PassesOverall(c, before, counted) && r.Some? ==>
      exists i {:trigger PassesLocal(c, before, counted, i)} ::
        && 0 <= i < |c.byJurisdiction| && PassesLocal(c, before, counted, i)
        && (forall k :: 0 <= k < i ==> !PassesLocal(c, before, counted, k))
        && r.value == JurisdictionCapReached(c.byJurisdiction[i].jurisdiction, c.byJurisdiction[i].cap)
  {
    if PassesOverall(c, before, counted) {
      return Some(CapReached(c.maxInvestors.value));
    }
    for i := 0 to |c.byJurisdiction|
      invariant forall k :: 0 <= k < i ==> !PassesLocal(c, before, counted, k)
    {
      if PassesLocal(c, before, counted, i) {
        return Some(JurisdictionCapReached(c.byJurisdiction[i].jurisdiction, c.byJurisdiction[i].cap));
      }
    }
    return None;
  }

  lemma {:induction false} SubsetCount(a: set<InvestorId>, b: set<InvestorId>)
    requires a <= b
    ensures |a| <= |b|
  {
    assert b == a + (b - a);
  }

  /** Counting more investors never undoes a refusal. */
  lemma {:induction false} RefusalIsMonotone(c: Caps, before: set<InvestorId>, counted: set<InvestorId>,
                                             more: set<InvestorId>)
    requires PassesACap(c, before, counted) && counted <= more
    ensures PassesACap(c, before, more)
  {
    SubsetCount(counted, more);
    if !PassesOverall(c, before, counted) {
      var i :| 0 <= i < |c.byJurisdiction| && PassesLocal(c, before, counted, i);
      var j := c.byJurisdiction[i].jurisdiction;
      SubsetCount(Located(c, counted, j), Located(c, more, j));
      assert PassesLocal(c, before, more, i);
    }
  }

  /** Within the overall cap and within that of every jurisdiction. */
  ghost predicate WithinCaps(c: Caps, ids: set<InvestorId>) {
    && (c.maxInvestors.Some? ==> |ids| <= c.maxInvestors.value)
    && forall i {:trigger c.byJurisdiction[i]} :: 0 <= i < |c.byJurisdiction| ==>
         |Located(c, ids, c.byJurisdiction[i].jurisdiction)| <= c.byJurisdiction[i].cap
  }

  /** From a count within the caps, no cap is passed exactly while the count stays within them. */
  lemma {:induction false} PassesIffOutside(c: Caps, before: set<InvestorId>, counted: set<InvestorId>)
    requires WithinCaps(c, before)
    ensures PassesACap(c, before, counted) <==> !WithinCaps(c, counted)
  {
    forall i | 0 <= i < |c.byJurisdiction|
      ensures PassesLocal(c, before, counted, i)
        <==> |Located(c, counted, c.byJurisdiction[i].jurisdiction)| > c.byJurisdiction[i].cap
    {
    }
  }

  // ----- greedy admission -----

  function HolderOf(owner: Fr, investors: map<Fr, Holder>, o: Fr): Option<Holder> {
    if o == owner then Some(Agent) else if o in investors then Some(investors[o]) else None
  }

  ghost predicate Known(owner: Fr, investors: map<Fr, Holder>, os: seq<Fr>) {
    forall i :: 0 <= i < |os| ==> HolderOf(owner, investors, os[i]).Some?
  }

  /** The investors among the holders of `os`. */
  function InvestorsOf(owner: Fr, investors: map<Fr, Holder>, os: seq<Fr>): set<InvestorId> {
    if |os| == 0 then {}
    else
      var h := HolderOf(owner, investors, os[|os| - 1]);
      InvestorsOf(owner, investors, os[..|os| - 1]) + if h.Some? && h.value.Investor? then {h.value.id} else {}
  }

  /** An investor is among them exactly if it is recorded for one of the owners, the agent's own value apart. */
  lemma {:induction false} InvestorsOfIs(owner: Fr, investors: map<Fr, Holder>, os: seq<Fr>, id: InvestorId)
    ensures id in InvestorsOf(owner, investors, os) <==>
      exists o :: o in os && o != owner && o in investors && investors[o] == Investor(id)
  {
    if |os| != 0 {
      InvestorsOfIs(owner, investors, os[..|os| - 1], id);
      assert os == os[..|os| - 1] + [os[|os| - 1]];
    }
  }

  /** The agent's own values and those of counted investors are admitted. */
  ghost predicate Passes(owner: Fr, investors: map<Fr, Holder>, counted: set<InvestorId>, o: Fr) {
    var h := HolderOf(owner, investors, o);
    h.Some? && (h.value.Investor? ==> h.value.id in counted)
  }

  /** A newcomer who, added to those counted, would pass a cap. */
  ghost predicate Excess(owner: Fr, investors: map<Fr, Holder>, c: Caps, before: set<InvestorId>,
                         counted: set<InvestorId>, o: Fr)
  {
    var h := HolderOf(owner, investors, o);
    h.Some? && h.value.Investor? && h.value.id !in counted && PassesACap(c, before, counted + {h.value.id})
  }

  /** A maximal admission: nobody passes a cap, everybody admitted is counted, everybody left out would pass one. */
  ghost predicate Admission(owner: Fr, investors: map<Fr, Holder>, c: Caps, before: set<InvestorId>,
                            counted: set<InvestorId>, admitted: seq<Fr>, overCap: seq<Fr>)
  {
    && counted == before + InvestorsOf(owner, investors, admitted)
    && !PassesACap(c, before, counted)
    && (forall i :: 0 <= i < |admitted| ==> Passes(owner, investors, counted, admitted[i]))
    && (forall i :: 0 <= i < |overCap| ==> Excess(owner, investors, c, before, counted, overCap[i]))
  }

  /** Every owner of `all` is in exactly one of the two lists, in the order and as often as it is listed. */
  ghost predicate Partition(admitted: seq<Fr>, overCap: seq<Fr>, all: seq<Fr>)
    decreases |all|
  {
    if |all| == 0 then admitted == [] && overCap == []
    else
      var front, last := all[..|all| - 1], all[|all| - 1];
      || (admitted != [] && admitted[|admitted| - 1] == last && Partition(admitted[..|admitted| - 1], overCap, front))
      || (overCap != [] && overCap[|overCap| - 1] == last && Partition(admitted, overCap[..|overCap| - 1], front))
  }

  lemma {:induction false} PartitionNext(admitted: seq<Fr>, overCap: seq<Fr>, all: seq<Fr>, i: nat)
    requires i < |all| && Partition(admitted, overCap, all[..i])
    ensures Partition(admitted + [all[i]], overCap, all[..i + 1])
    ensures Partition(admitted, overCap + [all[i]], all[..i + 1])
  {
    assert all[..i + 1][..i] == all[..i];
    assert (admitted + [all[i]])[..|admitted|] == admitted && (overCap + [all[i]])[..|overCap|] == overCap;
  }

  lemma {:induction false} LastCounts(s: seq<Fr>, o: Fr)
    requires |s| > 0
    ensures multiset(s)[o] == multiset(s[..|s| - 1])[o] + if s[|s| - 1] == o then 1 else 0
  {
    assert s == s[..|s| - 1] + [s[|s| - 1]];
  }

  lemma {:induction false} PartitionCountsOne(admitted: seq<Fr>, overCap: seq<Fr>, all: seq<Fr>, o: Fr)
    requires Partition(admitted, overCap, all)
    ensures multiset(admitted)[o] + multiset(overCap)[o] == multiset(all)[o]
    decreases |all|
  {
    if |all| != 0 {
      var front, last := all[..|all| - 1], all[|all| - 1];
      LastCounts(all, o);
      if admitted != [] && admitted[|admitted| - 1] == last && Partition(admitted[..|admitted| - 1], overCap, front) {
        LastCounts(admitted, o);
        PartitionCountsOne(admitted[..|admitted| - 1], overCap, front, o);
      } else {
        LastCounts(overCap, o);
        PartitionCountsOne(admitted, overCap[..|overCap| - 1], front, o);
      }
    }
  }

  lemma {:induction false} PartitionCounts(admitted: seq<Fr>, overCap: seq<Fr>, all: seq<Fr>)
    requires Partition(admitted, overCap, all)
    ensures multiset(admitted) + multiset(overCap) == multiset(all)
  {
    forall o: Fr ensures multiset(admitted)[o] + multiset(overCap)[o] == multiset(all)[o] {
      PartitionCountsOne(admitted, overCap, all, o);
    }
  }

  /** How far a round has come after the first `i` due owners. */
  ghost predicate Progress(owner: Fr, investors: map<Fr, Holder>, c: Caps, before: set<InvestorId>, due: seq<Fr>,
                           i: nat, counted: set<InvestorId>, admitted: seq<Fr>, overCap: seq<Fr>)
    requires i <= |due|
  {
    && Known(owner, investors, due[..i])
    && Partition(admitted, overCap, due[..i])
    && Admission(owner, investors, c, before, counted, admitted, overCap)
  }

  lemma {:induction false} ProgressStart(owner: Fr, investors: map<Fr, Holder>, c: Caps, before: set<InvestorId>,
                                         due: seq<Fr>)
    ensures Progress(owner, investors, c, before, due, 0, before, [], [])
  {
  }

  /** Takes the due owners in order. Fails only on an owner nobody is recorded for. */
  method Admit(owner: Fr, investors: map<Fr, Holder>, c: Caps, before: set<InvestorId>, due: seq<Fr>)
    returns (r: Option<AgentError>, counted: set<InvestorId>, admitted: seq<Fr>, overCap: seq<Fr>)
    ensures r.None? <==> Known(owner, investors, due)
    ensures r.None? ==> Partition(admitted, overCap, due)
    ensures r.None? ==> Admission(owner, investors, c, before, counted, admitted, overCap)
  {
    counted, admitted, overCap := before, [], [];
    ProgressStart(owner, investors, c, before, due);
    for i := 0 to |due|
      invariant Progress(owner, investors, c, before, due, i, counted, admitted, overCap)
    {
      if HolderOf(owner, investors, due[i]).None? {
        return Some(UnknownOwner(due[i])), counted, admitted, overCap;
      }
      counted, admitted, overCap := AdmitNext(owner, investors, c, before, due, i, counted, admitted, overCap);
    }
    assert due[..|due|] == due;
    return None, counted, admitted, overCap;
  }

  /** Admits the next owner, or lists it as over the cap. */
  method AdmitNext(owner: Fr, investors: map<Fr, Holder>, c: Caps, before: set<InvestorId>, due: seq<Fr>, i: nat,
                   counted: set<InvestorId>, admitted: seq<Fr>, overCap: seq<Fr>)
    returns (counted': set<InvestorId>, admitted': seq<Fr>, overCap': seq<Fr>)
    requires i < |due| && HolderOf(owner, investors, due[i]).Some?
    requires Progress(owner, investors, c, before, due, i, counted, admitted, overCap)
    ensures Progress(owner, investors, c, before, due, i + 1, counted', admitted', overCap')
  {
    var o := due[i];
    var h := HolderOf(owner, investors, o);
    counted', admitted', overCap' := counted, admitted, overCap;
    PartitionNext(admitted, overCap, due, i);
    KnownNext(owner, investors, due, i);
    if h.value.Investor? && h.value.id !in counted {
      var refusal := CapRefusal(c, before, counted + {h.value.id});
      if refusal.Some? {
        RefuseNewcomer(owner, investors, c, before, counted, admitted, overCap, o);
        overCap' := overCap + [o];
      } else {
        AdmitNewcomer(owner, investors, c, before, counted, admitted, overCap, o);
        counted', admitted' := counted + {h.value.id}, admitted + [o];
      }
    } else {
      AdmitKnown(owner, investors, c, before, counted, admitted, overCap, o);
      admitted' := admitted + [o];
    }
  }

  lemma {:induction false} KnownNext(owner: Fr, investors: map<Fr, Holder>, due: seq<Fr>, i: nat)
    requires i < |due| && Known(owner, investors, due[..i]) && HolderOf(owner, investors, due[i]).Some?
    ensures Known(owner, investors, due[..i + 1])
  {
    assert due[..i + 1] == due[..i] + [due[i]];
  }

  lemma {:induction false} AdmitKnown(owner: Fr, investors: map<Fr, Holder>, c: Caps, before: set<InvestorId>,
                                      counted: set<InvestorId>, admitted: seq<Fr>, overCap: seq<Fr>, o: Fr)
    requires Admission(owner, investors, c, before, counted, admitted, overCap) && Passes(owner, investors, counted, o)
    ensures Admission(owner, investors, c, before, counted, admitted + [o], overCap)
  {
    assert (admitted + [o])[..|admitted|] == admitted;
  }

  lemma {:induction false} RefuseNewcomer(owner: Fr, investors: map<Fr, Holder>, c: Caps, before: set<InvestorId>,
                                          counted: set<InvestorId>, admitted: seq<Fr>, overCap: seq<Fr>, o: Fr)
    requires Admission(owner, investors, c, before, counted, admitted, overCap)
    requires Excess(owner, investors, c, before, counted, o)
    ensures Admission(owner, investors, c, before, counted, admitted, overCap + [o])
  {
  }

  lemma {:induction false} AdmitNewcomer(owner: Fr, investors: map<Fr, Holder>, c: Caps, before: set<InvestorId>,
                                         counted: set<InvestorId>, admitted: seq<Fr>, overCap: seq<Fr>, o: Fr)
    requires Admission(owner, investors, c, before, counted, admitted, overCap)
    requires HolderOf(owner, investors, o).Some? && HolderOf(owner, investors, o).value.Investor?
    requires !PassesACap(c, before, counted + {HolderOf(owner, investors, o).value.id})
    ensures Admission(owner, investors, c, before, counted + {HolderOf(owner, investors, o).value.id}, admitted + [o],
                      overCap)
  {
    var id := HolderOf(owner, investors, o).value.id;
    assert (admitted + [o])[..|admitted|] == admitted;
    forall i | 0 <= i < |overCap| ensures Excess(owner, investors, c, before, counted + {id}, overCap[i]) {
      var other := HolderOf(owner, investors, overCap[i]).value.id;
      assert Excess(owner, investors, c, before, counted, overCap[i]);
      RefusalIsMonotone(c, before, counted + {other}, counted + {id} + {other});
    }
  }

  /** The admitted owners pass the batch-wide cap check, and no owner is both admitted and left out. */
  lemma {:induction false} AdmissionIsExact(owner: Fr, investors: map<Fr, Holder>, c: Caps, before: set<InvestorId>,
                                            counted: set<InvestorId>, admitted: seq<Fr>, overCap: seq<Fr>)
    requires Admission(owner, investors, c, before, counted, admitted, overCap)
    ensures !PassesACap(c, before, before + InvestorsOf(owner, investors, admitted))
    ensures forall o :: o in admitted ==> o !in overCap
    ensures forall o :: o in overCap ==> PassesACap(c, before, before + InvestorsOf(owner, investors, admitted + [o]))
    ensures forall o :: o in admitted + overCap && Passes(owner, investors, before, o) ==> o in admitted
    ensures owner !in overCap
  {
    forall o | o in overCap
      ensures o !in admitted && PassesACap(c, before, before + InvestorsOf(owner, investors, admitted + [o]))
    {
      assert (admitted + [o])[..|admitted|] == admitted;
      assert Excess(owner, investors, c, before, counted, o);
      var id := HolderOf(owner, investors, o).value.id;
      assert before + InvestorsOf(owner, investors, admitted + [o]) == counted + {id};
    }
  }

  // ----- who counts, and who is due -----

  predicate Accepted(env: Env, r: AttestationRecord, o: Fr) {
    r.owner == o && r.generation >= env.minAcceptedGeneration
  }

  /** Raising the least accepted generation to `g` withdraws exactly the attestations of earlier generations. */
  lemma RaisedGeneration(env: Env, r: AttestationRecord, o: Fr, g: nat)
    requires Accepted(env, r, o) && env.minAcceptedGeneration <= g
    ensures !Accepted(env.(minAcceptedGeneration := g), r, o) <==> r.generation < g
  {
  }

  /** Attested through the end of the current epoch. */
  ghost predicate Attested(env: Env, records: seq<AttestationRecord>, o: Fr) {
    exists i {:trigger records[i]} :: 0 <= i < |records| && Accepted(env, records[i], o)
      && (env.epoch + 1) * EPOCH_SECONDS <= records[i].expiresAt
  }

  method IsAttested(env: Env, records: seq<AttestationRecord>, o: Fr) returns (b: bool)
    ensures b <==> Attested(env, records, o)
  {
    for i := |records| downto 0
      invariant forall k {:trigger records[k]} :: i <= k < |records| ==>
        !(Accepted(env, records[k], o) && (env.epoch + 1) * EPOCH_SECONDS <= records[k].expiresAt)
    {
      if Accepted(env, records[i], o) && (env.epoch + 1) * EPOCH_SECONDS <= records[i].expiresAt {
        return true;
      }
    }
    return false;
  }

  /** No accepted attestation of the owner reaches `expiresAt`. */
  ghost predicate EndsBefore(env: Env, records: seq<AttestationRecord>, o: Fr, expiresAt: nat) {
    forall i {:trigger records[i]} :: 0 <= i < |records| && Accepted(env, records[i], o) ==>
      records[i].expiresAt < expiresAt
  }

  /** The latest end of the owner's accepted attestations. */
  method Ends(env: Env, records: seq<AttestationRecord>, o: Fr) returns (end: Option<nat>)
    ensures end.None? ==> forall i {:trigger records[i]} :: 0 <= i < |records| ==> !Accepted(env, records[i], o)
    ensures end.Some? ==>
      exists i {:trigger records[i]} :: 0 <= i < |records| && Accepted(env, records[i], o)
        && records[i].expiresAt == end.value
    ensures end.Some? ==> forall i {:trigger records[i]} :: 0 <= i < |records| && Accepted(env, records[i], o) ==>
      records[i].expiresAt <= end.value
  {
    end := None;
    for i := 0 to |records|
      invariant end.None? ==> forall k {:trigger records[k]} :: 0 <= k < i ==> !Accepted(env, records[k], o)
      invariant end.Some? ==>
        exists k {:trigger records[k]} :: 0 <= k < i && Accepted(env, records[k], o)
          && records[k].expiresAt == end.value
      invariant end.Some? ==> forall k {:trigger records[k]} :: 0 <= k < i && Accepted(env, records[k], o) ==>
        records[k].expiresAt <= end.value
    {
      if Accepted(env, records[i], o) && (end.None? || end.value < records[i].expiresAt) {
        end := Some(records[i].expiresAt);
      }
    }
  }

  // ----- expiry -----

  /** Periods are counted from the epoch of the first round. */
  function StartAt(periodStart: Option<nat>, epoch: nat): nat {
    if periodStart.Some? then periodStart.value else epoch
  }

  /** The end, in epochs, of the period that `epoch` plus the overlap falls in. */
  function PeriodEnd(start: nat, epoch: nat): nat
    requires start <= epoch + ATTESTATION_OVERLAP
  {
    start + ((epoch + ATTESTATION_OVERLAP - start) / ATTESTATION_PERIOD + 1) * ATTESTATION_PERIOD
  }

  function PeriodExpiry(start: nat, epoch: nat): nat
    requires start <= epoch + ATTESTATION_OVERLAP
  {
    PeriodEnd(start, epoch) * EPOCH_SECONDS
  }

  /** The registry's bounds on a batch's expiry. */
  lemma ExpiryWithinBounds(start: nat, epoch: nat)
    requires start <= epoch + ATTESTATION_OVERLAP
    ensures epoch * EPOCH_SECONDS < PeriodExpiry(start, epoch)
      < (epoch + 1 + ATTESTATION_PERIOD + ATTESTATION_OVERLAP) * EPOCH_SECONDS
  {
    var x := epoch + ATTESTATION_OVERLAP - start;
    var q := x / ATTESTATION_PERIOD;
    assert q * ATTESTATION_PERIOD <= x < (q + 1) * ATTESTATION_PERIOD;
  }

  /** An attestation issued at `issued` is renewed in exactly the overlap before its end, or later. */
  lemma RenewedInOverlap(start: nat, issued: nat, epoch: nat)
    requires start <= issued <= epoch
    ensures PeriodExpiry(start, issued) < PeriodExpiry(start, epoch)
      <==> PeriodEnd(start, issued) <= epoch + ATTESTATION_OVERLAP
    ensures PeriodExpiry(start, issued) == PeriodExpiry(start, epoch)
      <==> epoch + ATTESTATION_OVERLAP < PeriodEnd(start, issued)
  {
    var x, y := issued + ATTESTATION_OVERLAP - start, epoch + ATTESTATION_OVERLAP - start;
    var p, q := x / ATTESTATION_PERIOD, y / ATTESTATION_PERIOD;
    assert p * ATTESTATION_PERIOD <= x < (p + 1) * ATTESTATION_PERIOD
      && q * ATTESTATION_PERIOD <= y < (q + 1) * ATTESTATION_PERIOD;
  }

  /** Owners attested in a round stay attested and out of later rounds until the overlap, and then are due again. */
  lemma DueAgainInOverlap(env: Env, records: seq<AttestationRecord>, start: nat, issued: nat, o: Fr, i: nat)
    requires start <= issued <= env.epoch && i < |records|
    requires Accepted(env, records[i], o) && records[i].expiresAt == PeriodExpiry(start, issued)
    requires forall k {:trigger records[k]} :: 0 <= k < |records| && Accepted(env, records[k], o) ==>
      records[k].expiresAt <= PeriodExpiry(start, issued)
    ensures EndsBefore(env, records, o, PeriodExpiry(start, env.epoch))
      <==> PeriodEnd(start, issued) <= env.epoch + ATTESTATION_OVERLAP
    ensures Attested(env, records, o) <==> env.epoch < PeriodEnd(start, issued)
  {
    RenewedInOverlap(start, issued, env.epoch);
    if EndsBefore(env, records, o, PeriodExpiry(start, env.epoch)) {
      assert records[i].expiresAt < PeriodExpiry(start, env.epoch);
    }
  }

  /** The owners of `os` to attest now: not given up, and no accepted attestation reaches the round's expiry. */
  ghost function DueAmong(env: Env, records: seq<AttestationRecord>, notRenewed: set<Fr>, expiresAt: nat,
                          os: seq<Fr>): seq<Fr>
  {
    if |os| == 0 then []
    else
      var front, o := DueAmong(env, records, notRenewed, expiresAt, os[..|os| - 1]), os[|os| - 1];
      if o !in notRenewed && EndsBefore(env, records, o, expiresAt) then front + [o] else front
  }

  lemma {:induction false} DueAmongIs(env: Env, records: seq<AttestationRecord>, notRenewed: set<Fr>, expiresAt: nat,
                                      os: seq<Fr>, o: Fr)
    ensures o in DueAmong(env, records, notRenewed, expiresAt, os)
       <==> o in os && o !in notRenewed && EndsBefore(env, records, o, expiresAt)
  {
    if |os| != 0 {
      DueAmongIs(env, records, notRenewed, expiresAt, os[..|os| - 1], o);
      assert os == os[..|os| - 1] + [os[|os| - 1]];
    }
  }

  /** Nobody is due more often than listed. */
  lemma {:induction false} DueAmongOnce(env: Env, records: seq<AttestationRecord>, notRenewed: set<Fr>, expiresAt: nat,
                                        os: seq<Fr>)
    ensures multiset(DueAmong(env, records, notRenewed, expiresAt, os)) <= multiset(os)
  {
    if |os| != 0 {
      DueAmongOnce(env, records, notRenewed, expiresAt, os[..|os| - 1]);
      assert os == os[..|os| - 1] + [os[|os| - 1]];
    }
  }

  /** The due owners in order: the agent's own value first, then the recorded ones ascending, each as often as listed.
      */
  ghost predicate DueList(env: Env, records: seq<AttestationRecord>, notRenewed: set<Fr>, expiresAt: nat, owner: Fr,
                          investors: map<Fr, Holder>, keys: seq<Fr>, due: seq<Fr>)
  {
    && Ascending(keys) && (forall o :: o in keys <==> o in investors)
    && due == DueAmong(env, records, notRenewed, expiresAt, [owner] + keys)
    && multiset(due) <= multiset([owner] + keys)
  }

  // ----- batches -----

  function Flat(parts: seq<seq<Fr>>): seq<Fr> {
    if |parts| == 0 then [] else Flat(parts[..|parts| - 1]) + parts[|parts| - 1]
  }

  /** Cuts a list into parts; a list of a multiple of the part size gives full parts only. */
  method IntoParts(owners: seq<Fr>) returns (parts: seq<seq<Fr>>)
    ensures Flat(parts) == owners
    ensures forall i :: 0 <= i < |parts| ==> 0 < |parts[i]| <= ATTESTATION_PART
    ensures |owners| % ATTESTATION_PART == 0 ==> forall i :: 0 <= i < |parts| ==> |parts[i]| == ATTESTATION_PART
  {
    parts := [];
    var at := 0;
    while at < |owners|
      invariant 0 <= at <= |owners| && Flat(parts) == owners[..at]
      invariant forall i :: 0 <= i < |parts| ==> 0 < |parts[i]| <= ATTESTATION_PART
      invariant |owners| % ATTESTATION_PART == 0 ==> at % ATTESTATION_PART == 0 && forall i :: 0 <= i < |parts| ==>
        |parts[i]| == ATTESTATION_PART
    {
      var end := if at + ATTESTATION_PART < |owners| then at + ATTESTATION_PART else |owners|;
      assert owners[..at] + owners[at..end] == owners[..end];
      parts := parts + [owners[at..end]];
      at := end;
    }
    assert owners[..at] == owners;
  }

  predicate Ascending(s: seq<Fr>) {
    forall i, j :: 0 <= i < j < |s| ==> s[i] < s[j]
  }

  lemma {:induction false} InsertedElements(s: seq<Fr>, i: nat, x: Fr)
    requires i <= |s|
    ensures forall o :: o in s[..i] + [x] + s[i..] <==> o in s || o == x
  {
    assert s == s[..i] + s[i..];
  }

  /** The keys of an ordered map, in order. */
  method InOrder(keys: set<Fr>) returns (s: seq<Fr>)
    ensures Ascending(s) && forall o :: o in s <==> o in keys
  {
    s := [];
    var left := keys;
    while left != {}
      invariant left <= keys && Ascending(s) && forall o :: o in s <==> o in keys - left
    {
      var x :| x in left;
      left := left - {x};
      var i := 0;
      while i < |s| && s[i] < x
        invariant 0 <= i <= |s| && forall k :: 0 <= k < i ==> s[k] < x
      {
        i := i + 1;
      }
      assert forall k :: i <= k < |s| ==> s[k] > x by {
        assert x !in s;
      }
      ghost var shorter := s;
      s := s[..i] + [x] + s[i..];
      InsertedElements(shorter, i, x);
    }
  }

  // ----- the rounding remainder -----

  function Withdrawable(register: seq<RegisterEntry>, m: nat): nat {
    if |register| == 0 then 0
    else
      var e := register[|register| - 1];
      Withdrawable(register[..|register| - 1], m) + if e.spent then 0 else e.units * m / MULTIPLIER_SCALE
  }

  function UnspentUnits(register: seq<RegisterEntry>): nat {
    if |register| == 0 then 0
    else
      var e := register[|register| - 1];
      UnspentUnits(register[..|register| - 1]) + if e.spent then 0 else e.units
  }

  function UnspentNotes(register: seq<RegisterEntry>): nat {
    if |register| == 0 then 0
    else UnspentNotes(register[..|register| - 1]) + if register[|register| - 1].spent then 0 else 1
  }

  lemma {:induction false} WithdrawableBounds(register: seq<RegisterEntry>, m: nat)
    ensures Withdrawable(register, m) * MULTIPLIER_SCALE <= UnspentUnits(register) * m
    ensures UnspentUnits(register) * m <= (Withdrawable(register, m) + UnspentNotes(register)) * MULTIPLIER_SCALE
    ensures UnspentNotes(register) > 0 ==>
      UnspentUnits(register) * m < (Withdrawable(register, m) + UnspentNotes(register)) * MULTIPLIER_SCALE
  {
    if |register| != 0 {
      var front, e := register[..|register| - 1], register[|register| - 1];
      WithdrawableBounds(front, m);
      if !e.spent {
        var q := e.units * m / MULTIPLIER_SCALE;
        assert q * MULTIPLIER_SCALE <= e.units * m < (q + 1) * MULTIPLIER_SCALE;
        assert UnspentUnits(register) * m == UnspentUnits(front) * m + e.units * m;
      }
    }
  }

  method Remainder(register: seq<RegisterEntry>, balance: nat, m: nat) returns (r: Option<nat>)
    ensures r == if Withdrawable(register, m) <= balance then Some(balance - Withdrawable(register, m)) else None
  {
    var withdrawable := 0;
    for i := 0 to |register|
      invariant withdrawable == Withdrawable(register[..i], m)
    {
      assert register[..i + 1][..i] == register[..i];
      if !register[i].spent {
        withdrawable := withdrawable + register[i].units * m / MULTIPLIER_SCALE;
      }
    }
    assert register[..|register|] == register;
    return if withdrawable <= balance then Some(balance - withdrawable) else None;
  }

  /** Solvency: under the multiplier rule the notes never withdraw more than the balance, and rounding note by
      note leaves at least the pool-level remainder and less than one share a note more. */
  lemma RemainderBounds(register: seq<RegisterEntry>, balance: nat, m: nat)
    requires UnspentUnits(register) * m <= balance * MULTIPLIER_SCALE
    ensures Withdrawable(register, m) <= balance
    ensures var pool := balance - UnspentUnits(register) * m / MULTIPLIER_SCALE;
            pool <= balance - Withdrawable(register, m) <= pool
              + (if UnspentNotes(register) == 0 then 0 else UnspentNotes(register) - 1)
  {
    WithdrawableBounds(register, m);
  }

  // ----- the agent -----

  datatype AttestationRound = AttestationRound(parts: seq<seq<Fr>>, expiresAt: nat, generation: nat, overCap: seq<Fr>)

  class TransferAgent {
    const owner: Fr
    var caps: Caps
    var investors: map<Fr, Holder>
    var notRenewed: set<Fr>
    var register: seq<RegisterEntry>
    var publicHolders: map<Address, InvestorId>
    var periodStart: Option<nat>

    constructor (owner: Fr, caps: Caps)
      ensures this.owner == owner && this.caps == caps && investors == map[] && notRenewed == {} && register == []
      ensures publicHolders == map[] && periodStart == None
    {
      this.owner, this.caps, investors, notRenewed, register, publicHolders, periodStart :=
        owner, caps, map[], {}, [], map[], None;
    }

    ghost predicate CountsByAttestation(env: Env, records: seq<AttestationRecord>, id: InvestorId)
      reads this
    {
      exists o {:trigger investors[o]} :: o in investors && investors[o] == Investor(id) && Attested(env, records, o)
    }

    ghost predicate CountsByHolding(id: InvestorId, n: nat)
      requires n <= |register|
      reads this
    {
      exists i {:trigger register[i]} :: 0 <= i < n && !register[i].spent && register[i].units > 0
        && register[i].holder == Some(Investor(id))
    }

    ghost predicate CountsPublicly(publicly: seq<Address>, id: InvestorId)
      reads this
    {
      exists i {:trigger publicly[i]} :: 0 <= i < |publicly| && publicly[i] in publicHolders
        && publicHolders[publicly[i]] == id
    }

    ghost predicate Counts(env: Env, records: seq<AttestationRecord>, publicly: seq<Address>, id: InvestorId)
      reads this
    {
      CountsByAttestation(env, records, id) || CountsByHolding(id, |register|) || CountsPublicly(publicly, id)
    }

    /** Due at this round: the agent's own value or a recorded one, not given up, and ending before the expiry. */
    ghost predicate Due(env: Env, records: seq<AttestationRecord>, expiresAt: nat, o: Fr)
      reads this
    {
      (o == owner || o in investors) && o !in notRenewed && EndsBefore(env, records, o, expiresAt)
    }

    /** Attested now, holding units, or holding publicly; fails exactly when a public holding is nobody's. */
    method CountedInvestors(env: Env, records: seq<AttestationRecord>, publicly: seq<Address>)
      returns (r: Result<set<InvestorId>, AgentError>)
      ensures r.Ok? <==> forall i :: 0 <= i < |publicly| ==> publicly[i] in publicHolders
      ensures r.Ok? ==> forall id :: id in r.value <==> Counts(env, records, publicly, id)
    {
      var attested := AttestedInvestors(env, records);
      var holding := HoldingInvestors();
      var ids: set<InvestorId> := {};
      for i := 0 to |publicly|
        invariant forall k :: 0 <= k < i ==> publicly[k] in publicHolders
        invariant forall id :: id in ids <==> CountsPublicly(publicly[..i], id)
      {
        if publicly[i] !in publicHolders {
          return Err(UnknownPublicHolder(publicly[i]));
        }
        assert publicly[..i + 1] == publicly[..i] + [publicly[i]];
        ids := ids + {publicHolders[publicly[i]]};
      }
      assert publicly[..|publicly|] == publicly;
      return Ok(attested + holding + ids);
    }

    method AttestedInvestors(env: Env, records: seq<AttestationRecord>) returns (ids: set<InvestorId>)
      ensures forall id :: id in ids <==> CountsByAttestation(env, records, id)
    {
      ids := {};
      var left := investors.Keys;
      while left != {}
        invariant left <= investors.Keys
        invariant forall id :: id in ids <==>
          exists o {:trigger investors[o]} :: o in investors && o !in left && investors[o] == Investor(id)
            && Attested(env, records, o)
      {
        var o :| o in left;
        left := left - {o};
        if investors[o].Investor? {
          var attested := IsAttested(env, records, o);
          if attested {
            ids := ids + {investors[o].id};
          }
        }
      }
    }

    method HoldingInvestors() returns (ids: set<InvestorId>)
      ensures forall id :: id in ids <==> CountsByHolding(id, |register|)
    {
      ids := {};
      for i := 0 to |register|
        invariant forall id :: id in ids <==> CountsByHolding(id, i)
      {
        var e := register[i];
        if !e.spent && e.units > 0 && e.holder.Some? && e.holder.value.Investor? {
          ids := ids + {e.holder.value.id};
        }
      }
    }

    /** `ids` are exactly the investors that count. */
    ghost predicate CountIs(env: Env, records: seq<AttestationRecord>, publicly: seq<Address>, ids: set<InvestorId>)
      reads this
    {
      forall id :: id in ids <==> Counts(env, records, publicly, id)
    }

    /** Passes a batch exactly when every public holding and every owner is known and its investors, counted
        together, pass no cap. */
    method CheckCap(env: Env, records: seq<AttestationRecord>, owners: seq<Fr>, publicly: seq<Address>)
      returns (r: Option<AgentError>)
      ensures forall before {:trigger CountIs(env, records, publicly, before)} ::
        CountIs(env, records, publicly, before) ==>
        (r.None? <==>
          && (forall i :: 0 <= i < |publicly| ==> publicly[i] in publicHolders) && Known(owner, investors, owners)
          && !PassesACap(caps, before, before + InvestorsOf(owner, investors, owners)))
    {
      var count := CountedInvestors(env, records, publicly);
      if count.Err? {
        return Some(count.error);
      }
      var counted := count.value;
      for i := 0 to |owners|
        invariant Known(owner, investors, owners[..i])
        invariant counted == count.value + InvestorsOf(owner, investors, owners[..i])
      {
        assert owners[..i + 1][..i] == owners[..i];
        var h := HolderOf(owner, investors, owners[i]);
        if h.None? {
          return Some(UnknownOwner(owners[i]));
        }
        if h.value.Investor? {
          counted := counted + {h.value.id};
        }
      }
      assert owners[..|owners|] == owners;
      r := CapRefusal(caps, count.value, counted);
      forall before | CountIs(env, records, publicly, before) ensures before == count.value {
        assert forall id :: id in before <==> id in count.value;
      }
    }

    /** The owners to attest: the agent's own value first, then the recorded ones in order. */
    method DueOwners(env: Env, records: seq<AttestationRecord>, expiresAt: nat)
      returns (due: seq<Fr>, ghost keys: seq<Fr>)
      ensures DueList(env, records, notRenewed, expiresAt, owner, investors, keys, due)
      ensures Known(owner, investors, due)
    {
      var ordered := InOrder(investors.Keys);
      keys := ordered;
      var all := [owner] + ordered;
      due := [];
      for i := 0 to |all|
        invariant due == DueAmong(env, records, notRenewed, expiresAt, all[..i])
        invariant Known(owner, investors, due)
      {
        assert all[..i + 1][..i] == all[..i];
        if all[i] !in notRenewed {
          var end := Ends(env, records, all[i]);
          if end.None? || end.value < expiresAt {
            assert all[i] == owner || all[i] in ordered;
            due := due + [all[i]];
          }
        }
      }
      assert all[..|all|] == all;
      DueAmongOnce(env, records, notRenewed, expiresAt, all);
    }

    /** Records `n` new padding values. */
    method FreshPadding(n: nat, draw: nat -> Fr) returns (added: seq<Fr>)
      modifies this`investors
      ensures added == seq(n, i requires 0 <= i < n => draw(i))
      ensures forall o :: o in investors <==> o in old(investors) || o in added
      ensures forall o :: o in investors ==> investors[o] == if o in added then Padding else old(investors)[o]
    {
      added := [];
      for i := 0 to n
        invariant added == seq(i, k requires 0 <= k < i => draw(k))
        invariant forall o :: o in investors <==> o in old(investors) || o in added
        invariant forall o :: o in investors ==> investors[o] == if o in added then Padding else old(investors)[o]
      {
        investors := investors[draw(i) := Padding];
        added := added + [draw(i)];
      }
    }

    /** Who is due, and of those who is admitted. */
    method Select(env: Env, records: seq<AttestationRecord>, publicly: seq<Address>, expiresAt: nat)
      returns (r: Option<AgentError>, owners: seq<Fr>, overCap: seq<Fr>, ghost before: set<InvestorId>,
               ghost counted: set<InvestorId>, ghost keys: seq<Fr>, ghost due: seq<Fr>)
      ensures r.None? <==> forall i :: 0 <= i < |publicly| ==> publicly[i] in publicHolders
      ensures r.None? ==>
        && (forall id :: id in before <==> Counts(env, records, publicly, id))
        && DueList(env, records, notRenewed, expiresAt, owner, investors, keys, due)
        && (forall o :: o in due <==> Due(env, records, expiresAt, o))
        && Partition(owners, overCap, due)
        && Admission(owner, investors, caps, before, counted, owners, overCap)
    {
      var dueOwners;
      dueOwners, keys := DueOwners(env, records, expiresAt);
      due := dueOwners;
      forall o ensures o in due <==> Due(env, records, expiresAt, o) {
        DueAmongIs(env, records, notRenewed, expiresAt, [owner] + keys, o);
      }
      owners, overCap, before, counted := [], [], {}, {};
      var count := CountedInvestors(env, records, publicly);
      if count.Err? {
        r := Some(count.error);
        return;
      }
      before := count.value;
      r, counted, owners, overCap := Admit(owner, investors, caps, count.value, dueOwners);
    }

    /** Pads a non-empty batch to full parts with new values, and shuffles and cuts it. */
    method PadAndCut(owners: seq<Fr>, draw: nat -> Fr, shuffle: seq<Fr> -> seq<Fr>)
      returns (parts: seq<seq<Fr>>, ghost padding: seq<Fr>)
      requires forall s: seq<Fr> :: multiset(shuffle(s)) == multiset(s)
      modifies this`investors
      ensures multiset(Flat(parts)) == multiset(owners + padding)
      ensures |padding| < ATTESTATION_PART && (owners == [] ==> padding == [])
      ensures forall i :: 0 <= i < |parts| ==> |parts[i]| == ATTESTATION_PART
      ensures forall o :: o in investors <==> o in old(investors) || o in padding
      ensures forall o :: o in investors ==> investors[o] == if o in padding then Padding else old(investors)[o]
    {
      var missing := if |owners| % ATTESTATION_PART == 0 then 0 else ATTESTATION_PART - |owners| % ATTESTATION_PART;
      var added := FreshPadding(missing, draw);
      padding := added;
      var shuffled := shuffle(owners + added);
      SameLength(shuffled, owners + added);
      parts := IntoParts(shuffled);
    }

    /** One attestation round. It fails only when a public holding is nobody's, and then changes nothing but the
        period's start. Otherwise every due owner is admitted or listed as over the cap, the admission is maximal,
        and the batch is the admitted owners and just enough new padding, in some order, in full parts. */
    method AttestationBatch(env: Env, records: seq<AttestationRecord>, publicly: seq<Address>, generation: nat,
                            draw: nat -> Fr, shuffle: seq<Fr> -> seq<Fr>)
      returns (r: Result<AttestationRound, AgentError>, ghost before: set<InvestorId>, ghost counted: set<InvestorId>,
               ghost keys: seq<Fr>, ghost due: seq<Fr>, ghost admitted: seq<Fr>, ghost padding: seq<Fr>)
      requires periodStart.Some? ==> periodStart.value <= env.epoch
      requires forall s: seq<Fr> :: multiset(shuffle(s)) == multiset(s)
      modifies this`investors, this`periodStart
      ensures periodStart == Some(StartAt(old(periodStart), env.epoch))
      ensures r.Ok? <==> forall i :: 0 <= i < |publicly| ==> publicly[i] in publicHolders
      ensures r.Err? ==> investors == old(investors)
      ensures r.Ok? ==>
        && r.value.expiresAt == PeriodExpiry(periodStart.value, env.epoch) && r.value.generation == generation
        && (forall id :: id in before <==> old(Counts(env, records, publicly, id)))
        && DueList(env, records, notRenewed, r.value.expiresAt, owner, old(investors), keys, due)
        && (forall o :: o in due <==>
             old(Due(env, records, PeriodExpiry(StartAt(periodStart, env.epoch), env.epoch), o)))
        && Partition(admitted, r.value.overCap, due)
        && Admission(owner, old(investors), caps, before, counted, admitted, r.value.overCap)
      ensures r.Ok? ==>
        && multiset(Flat(r.value.parts)) == multiset(admitted + padding)
        && |padding| < ATTESTATION_PART && (admitted == [] ==> padding == [])
        && (forall i :: 0 <= i < |r.value.parts| ==> |r.value.parts[i]| == ATTESTATION_PART)
        && (forall o :: o in investors <==> o in old(investors) || o in padding)
        && (forall o :: o in investors ==> investors[o] == if o in padding then Padding else old(investors)[o])
    {
      padding := [];
      if periodStart.None? {
        periodStart := Some(env.epoch);
      }
      var expiresAt := PeriodExpiry(periodStart.value, env.epoch);
      var refusal, owners, overCap;
      refusal, owners, overCap, before, counted, keys, due := Select(env, records, publicly, expiresAt);
      admitted := owners;
      if refusal.Some? {
        r := Err(refusal.value);
        return;
      }
      var parts, added := PadAndCut(owners, draw, shuffle);
      padding := added;
      r := Ok(AttestationRound(parts, expiresAt, generation, overCap));
    }
  }

  lemma {:induction false} SameLength(s: seq<Fr>, t: seq<Fr>)
    requires multiset(s) == multiset(t)
    ensures |s| == |t|
  {
    assert |multiset(s)| == |s| && |multiset(t)| == |t|;
  }
}
