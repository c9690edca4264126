/** The log-space frontier ("caterpillar") and the signer state over every run of enrolment,
    advancing and journaling. */
module Ratchet {
  import opened Merkle
  import opened Wrappers
  import opened Fsrt

  // ----- counting in binary -----

  /** Once the carry has stopped, the higher ancestors of `t` and `t + 1` coincide. */
  lemma {:induction false} AncAbove(t: nat, level: nat, k: nat)
    requires Anc(t + 1, level) == Anc(t, level)
    ensures Anc(t + 1, level + k) == Anc(t, level + k)
  {
    if k != 0 {
      AncAbove(t, level, k - 1);
    }
  }

  /** The frontier entry for `level`: the complete left sibling of the current slot's ancestor, or nothing. */
  ghost predicate EntryHolds(c: Chain, absorbed: seq<Digest>, entry: Option<Digest>, level: nat) {
    var a := Anc(|absorbed|, level);
    if a % 2 == 1 then entry == Some(Node(c.node, ZERO_VALUE, absorbed, level, a - 1)) else entry == None
  }

  /** A missing entry stands for the empty subtree of its level. */
  function OrEmpty(c: Chain, entry: Option<Digest>, level: nat): Digest {
    if entry.Some? then entry.value else EmptyAt(c, level)
  }

  /** What the frontier holds for `level` on disk. */
  ghost function FrontierAt(c: Chain, absorbed: seq<Digest>, level: nat): Digest {
    var a := Anc(|absorbed|, level);
    if a % 2 == 1 then Node(c.node, ZERO_VALUE, absorbed, level, a - 1) else EmptyAt(c, level)
  }

  ghost predicate FrontierHolds(c: Chain, absorbed: seq<Digest>, active: seq<Option<Digest>>) {
    |active| == c.depth && forall l :: 0 <= l < c.depth ==> EntryHolds(c, absorbed, active[l], l)
  }

  /** A subtree left of slot `t` does not notice the value of slot `t`. */
  lemma LeftUnchanged(c: Chain, absorbed: seq<Digest>, v: Digest, level: nat)
    requires Anc(|absorbed|, level) % 2 == 1
    ensures var a := Anc(|absorbed|, level) - 1;
            Node(c.node, ZERO_VALUE, absorbed, level, a) == Node(c.node, ZERO_VALUE, absorbed + [v], level, a)
  {
    assert AgreeOff(ZERO_VALUE, absorbed, absorbed + [v], |absorbed|);
    NodeAgree(c.node, ZERO_VALUE, absorbed, absorbed + [v], |absorbed|, level, Anc(|absorbed|, level) - 1);
  }

  lemma EntryAbove(c: Chain, absorbed: seq<Digest>, v: Digest, entry: Option<Digest>, level: nat, k: nat)
    requires Anc(|absorbed| + 1, level + 1) == Anc(|absorbed|, level + 1) && level < k
    requires EntryHolds(c, absorbed, entry, k)
    ensures EntryHolds(c, absorbed + [v], entry, k)
  {
    AncAbove(|absorbed|, level + 1, k - level - 1);
    if Anc(|absorbed|, k) % 2 == 1 {
      LeftUnchanged(c, absorbed, v, k);
    }
  }

  /** Right of the current slot everything is empty. */
  lemma RightIsEmpty(c: Chain, absorbed: seq<Digest>, v: Digest, level: nat)
    ensures Node(c.node, ZERO_VALUE, absorbed + [v], level, Anc(|absorbed|, level) + 1) == EmptyAt(c, level)
  {
    AncBounds(|absorbed|, level);
    NodeOfNothing(c.node, ZERO_VALUE, absorbed + [v], level, Anc(|absorbed|, level) + 1);
  }

  class Caterpillar {
    const c: Chain
    var active: seq<Option<Digest>>
    var t: nat
    ghost var absorbed: seq<Digest>

    ghost predicate Valid()
      reads this
    {
      t == |absorbed| && FrontierHolds(c, absorbed, active)
    }

    constructor (c: Chain)
      ensures Valid() && this.c == c && absorbed == []
    {
      this.c := c;
      active := seq(c.depth, i => None);
      t := 0;
      absorbed := [];
      new;
      forall l | 0 <= l < c.depth ensures EntryHolds(c, absorbed, active[l], l) {
        AncTop(0, l);
      }
    }

    constructor Clone(from: Caterpillar)
      requires from.Valid()
      ensures Valid() && c == from.c && absorbed == from.absorbed
    {
      c := from.c;
      active := from.active;
      t := from.t;
      absorbed := from.absorbed;
    }

    method ToBytes() returns (bytes: seq<Digest>)
      requires Valid()
      ensures |bytes| == c.depth && forall l :: 0 <= l < c.depth ==> bytes[l] == FrontierAt(c, absorbed, l)
    {
      bytes := [];
      for i := 0 to c.depth
        invariant |bytes| == i
        invariant forall l :: 0 <= l < i ==> bytes[l] == FrontierAt(c, absorbed, l)
      {
        assert EntryHolds(c, absorbed, active[i], i);
        bytes := bytes + [OrEmpty(c, active[i], i)];
      }
    }

    /** Absorbs the value of the current slot by binary carry. */
    method Advance(slot: nat, v: Digest)
      requires Valid() && slot == t
      modifies this
      ensures Valid() && absorbed == old(absorbed) + [v]
    {
      var carry, idx := v, t;
      var level := 0;
      ghost var s, after := absorbed, absorbed + [v];
      while level < c.depth
        invariant level <= c.depth && |active| == c.depth && t == |s|
        invariant idx == Anc(t, level) && Anc(t + 1, level) == idx + 1
        invariant carry == Node(c.node, ZERO_VALUE, after, level, idx)
        invariant forall l :: 0 <= l < level ==> EntryHolds(c, after, active[l], l)
        invariant forall l :: level <= l < c.depth ==> EntryHolds(c, s, active[l], l)
      {
        if idx % 2 == 0 {
          forall l | level < l < c.depth ensures EntryHolds(c, after, active[l], l) {
            EntryAbove(c, s, v, active[l], level, l);
          }
          active := active[level := Some(carry)];
          break;
        } else {
          LeftUnchanged(c, s, v, level);
          var left := OrEmpty(c, active[level], level);
          carry := c.node(left, carry);
          active := active[level := None];
          idx := idx / 2;
        }
        level := level + 1;
      }
      t := t + 1;
      absorbed := after;
    }

    /** The path for the slot about to be signed: whatever value `v` that slot holds, it is the path of
        the slot in the tree over the absorbed values and `v`. */
    method PathForCurrentSlot() returns (siblings: seq<Digest>, indices: seq<bool>)
      requires Valid()
      ensures indices == Bits(t, c.depth)
      ensures forall v :: siblings == Path(c.node, ZERO_VALUE, absorbed + [v], 0, t, c.depth)
    {
      siblings, indices := [], [];
      var idx := t;
      ghost var zero := absorbed + [ZERO_VALUE];
      for level := 0 to c.depth
        invariant idx == Anc(t, level) && |siblings| == level
        invariant Collected(c.node, ZERO_VALUE, zero, t, siblings, indices)
      {
        var sib := if idx % 2 == 0 then EmptyAt(c, level) else OrEmpty(c, active[level], level);
        assert EntryHolds(c, absorbed, active[level], level);
        if idx % 2 == 0 {
          RightIsEmpty(c, absorbed, ZERO_VALUE, level);
        } else {
          LeftUnchanged(c, absorbed, ZERO_VALUE, level);
        }
        CollectedNext(c.node, ZERO_VALUE, zero, t, siblings, indices, sib);
        siblings, indices := siblings + [sib], indices + [idx % 2 == 1];
        idx := idx / 2;
      }
      CollectedIsPath(c.node, ZERO_VALUE, zero, t, siblings, indices);
      forall v ensures siblings == Path(c.node, ZERO_VALUE, absorbed + [v], 0, t, c.depth) {
        assert AgreeOff(ZERO_VALUE, zero, absorbed + [v], t);
        PathAgree(c.node, ZERO_VALUE, zero, absorbed + [v], t, 0, c.depth);
      }
    }
  }

  /** The frontier's path takes any value of the next slot to the chain root of the extended chain. */
  lemma FrontierPathFolds(c: Chain, absorbed: seq<Digest>, v: Digest, siblings: seq<Digest>, indices: seq<bool>)
    requires |absorbed| < Pow2(c.depth) && indices == Bits(|absorbed|, c.depth)
    requires siblings == Path(c.node, ZERO_VALUE, absorbed + [v], 0, |absorbed|, c.depth)
    ensures Fold(c.node, v, siblings, indices) == ChainRoot(c, absorbed + [v])
  {
    PathFolds(c, absorbed + [v], |absorbed|);
  }

  /** The frontier's path leads to the enrolled root exactly for the last slot of the chain (given nonzero values and a
      collision-free node hash): before that the later slots still count as empty. */
  lemma FrontierRootIsEnrolledIff(c: Chain, values: seq<Digest>, t: nat)
    requires Injective(c.node) && t < |values| <= Pow2(c.depth)
    requires forall i :: 0 <= i < |values| ==> values[i] != ZERO_VALUE
    ensures ChainRoot(c, values[..t + 1]) == ChainRoot(c, values) <==> t + 1 == |values|
  {
    if t + 1 == |values| {
      assert values[..t + 1] == values;
    } else {
      AncTop(t + 1, c.depth);
      assert LeafAt(ZERO_VALUE, values[..t + 1], t + 1) == ZERO_VALUE != LeafAt(ZERO_VALUE, values, t + 1);
      if ChainRoot(c, values[..t + 1]) == ChainRoot(c, values) {
        NodeBinding(c.node, ZERO_VALUE, values[..t + 1], values, c.depth, 0, t + 1);
      }
    }
  }

  // ----- the signer state -----

  /** Slots below `w` overwritten with zero. */
  function Wipe(s: seq<Digest>, w: nat): (r: seq<Digest>)
    ensures |r| == |s|
  {
    seq(|s|, i requires 0 <= i < |s| => if i < w then ZERO_VALUE else s[i])
  }

  lemma NextStep(c: Chain, s0: Digest, n: nat, w: nat, slot: nat)
    requires w <= slot < n
    ensures Values(c, s0, n)[..slot] + [Wipe(Values(c, s0, n), w)[slot]] == Values(c, s0, n)[..slot + 1]
    ensures c.prg(Wipe(Seeds(c, s0, n), w)[slot]).1 == SeedAt(c, s0, slot + 1)
    ensures Wipe(Wipe(Values(c, s0, n), w), slot + 1) == Wipe(Values(c, s0, n), slot + 1)
    ensures Wipe(Wipe(Seeds(c, s0, n), w), slot + 1) == Wipe(Seeds(c, s0, n), slot + 1)
  {
  }

  datatype Snapshot = Snapshot(sCurr: Digest, t: nat, caterpillar: seq<Digest>, chainRoot: Digest, attrVersion: nat)

  /** How persisting a snapshot ends: before the rename, between the rename and the directory sync, or
      durably. Only the last lets the in-memory state move. */
  datatype Persist = Failed | RenamedOnly | Durable

  /** Journaled slots, each larger than the one before. */
  ghost predicate Climbing(slots: seq<nat>) {
    forall i, j :: 0 <= i < j < |slots| ==> slots[i] < slots[j]
  }

  /** How many slots a journal of these slots has wiped. */
  ghost function WipedBy(slots: seq<nat>): nat {
    if |slots| == 0 then 0 else slots[|slots| - 1] + 1
  }

  lemma ClimbingNext(slots: seq<nat>, slot: nat)
    requires Climbing(slots) && WipedBy(slots) <= slot
    ensures Climbing(slots + [slot]) && WipedBy(slots + [slot]) == slot + 1
  {
    forall i, j | 0 <= i < j < |slots + [slot]| ensures (slots + [slot])[i] < (slots + [slot])[j] {
      if j == |slots| && i < |slots| - 1 {
        assert slots[i] < slots[|slots| - 1];
      }
    }
  }

  /** Seeds and values are original from slot `w` on and zero before, and the head is the seed of slot `w`. */
  ghost predicate SecretsHold(c: Chain, s0: Digest, n: nat, w: nat, sCurr: Digest, values: seq<Digest>,
                              seeds: seq<Digest>)
  {
    values == Wipe(Values(c, s0, n), w) && seeds == Wipe(Seeds(c, s0, n), w) && sCurr == SeedAt(c, s0, w)
  }

  lemma SecretsNext(c: Chain, s0: Digest, n: nat, w: nat, slot: nat, sCurr: Digest, values: seq<Digest>,
                    seeds: seq<Digest>)
    requires w <= slot < n && SecretsHold(c, s0, n, w, sCurr, values, seeds)
    ensures SecretsHold(c, s0, n, slot + 1, SeedAt(c, s0, slot + 1), Wipe(values, slot + 1), Wipe(seeds, slot + 1))
  {
    NextStep(c, s0, n, w, slot);
  }

  /** What the journal holds after `slot`: the next slot's number and seed, the frontier over the values up to
      `slot`, and the enrolled root and version. */
  ghost predicate JournalOf(c: Chain, s0: Digest, n: nat, root: Digest, attrVersion: nat, slot: nat, s: Snapshot)
    requires slot < n
  {
    && s.t == slot + 1 && s.sCurr == SeedAt(c, s0, slot + 1) && s.chainRoot == root && s.attrVersion == attrVersion
    && |s.caterpillar| == c.depth
    && forall l :: 0 <= l < c.depth ==> s.caterpillar[l] == FrontierAt(c, Values(c, s0, n)[..slot + 1], l)
  }

  class SignerChainState {
    const c: Chain
    const chainRoot: Digest
    const attrVersion: nat
    var sCurr: Digest
    var t: nat
    var cat: Caterpillar
    var vValues: seq<Digest>
    var sSeeds: seq<Digest>
    /** The journal file. */
    var disk: Option<Snapshot>
    ghost const s0: Digest
    ghost const n: nat
    /** The slots journaled so far, in order. */
    ghost var journaled: seq<nat>

    ghost function Wiped(): nat
      reads this
    {
      WipedBy(journaled)
    }

    ghost predicate Valid()
      reads this, cat
    {
      && t <= n && Wiped() <= t
      && cat.Valid() && cat.c == c && cat.absorbed == Values(c, s0, n)[..t]
      && SecretsHold(c, s0, n, Wiped(), sCurr, vValues, sSeeds)
      && chainRoot == ChainRoot(c, Values(c, s0, n))
      && Climbing(journaled)
      && (|journaled| > 0 ==> disk.Some?)
      && (disk.Some? ==> disk.value.t >= Wiped() && disk.value.sCurr == SeedAt(c, s0, disk.value.t))
    }

    constructor Enroll(c: Chain, s0: Digest, chainLen: nat, attrVersion: nat)
      ensures Valid() && this.c == c && this.s0 == s0 && n == chainLen && t == 0 && journaled == []
      ensures fresh(cat) && this.attrVersion == attrVersion && disk == None
    {
      var values, seeds := ExpandChain(c, s0, chainLen);
      var root := ComputeChainRoot(c, values);
      var empty := new Caterpillar(c);
      this.c, this.chainRoot, this.attrVersion, this.s0, n := c, root, attrVersion, s0, chainLen;
      sCurr, t, cat, vValues, sSeeds, disk, journaled := s0, 0, empty, values, seeds, None, [];
    }

    /** Absorbs the original values of the slots passed over; secrets and journal stay as they are. */
    method AdvanceTo(target: nat)
      requires Valid() && t <= target < |vValues|
      modifies this`t, cat
      ensures Valid() && t == target
    {
      while t < target
        invariant Valid() && t <= target
        invariant cat == old(cat)
      {
        NextStep(c, s0, n, Wiped(), t);
        cat.Advance(t, vValues[t]);
        t := t + 1;
      }
    }

    method MerklePathForCurrentSlot() returns (siblings: seq<Digest>, indices: seq<bool>)
      requires Valid()
      ensures t < n ==>
        siblings == Path(c.node, ZERO_VALUE, vValues, 0, t, c.depth) && indices == Bits(t, c.depth)
    {
      siblings, indices := ComputePath(c, vValues, t);
    }

    /** Overwrites the secrets of all slots up to `slot`. */
    method WipeThrough(slot: nat)
      modifies this`vValues, this`sSeeds
      ensures vValues == Wipe(old(vValues), slot + 1) && sSeeds == Wipe(old(sSeeds), slot + 1)
    {
      for i := 0 to slot + 1
        invariant vValues == Wipe(old(vValues), i) && sSeeds == Wipe(old(sSeeds), i)
      {
        if i < |vValues| {
          vValues := vValues[i := ZERO_VALUE];
        }
        if i < |sSeeds| {
          sSeeds := sSeeds[i := ZERO_VALUE];
        }
      }
    }

    /** The commit point of a journal: head, frontier and counter move, and past secrets are wiped. */
    method Commit(slot: nat, sNext: Digest, next: Caterpillar)
      requires Valid() && slot == t < n && sNext == SeedAt(c, s0, slot + 1)
      requires next.Valid() && next.c == c && next.absorbed == Values(c, s0, n)[..slot + 1]
      requires disk.Some? && disk.value.t == slot + 1 && disk.value.sCurr == sNext
      modifies this`sCurr, this`t, this`cat, this`vValues, this`sSeeds, this`journaled
      ensures Valid()
      ensures t == slot + 1 && sCurr == sNext && cat == next && journaled == old(journaled) + [slot]
    {
      SecretsNext(c, s0, n, Wiped(), slot, sCurr, vValues, sSeeds);
      ClimbingNext(journaled, slot);
      sCurr := sNext;
      cat := next;
      t := slot + 1;
      journaled := journaled + [slot];
      WipeThrough(slot);
    }

    /** The state after the current slot, computed on the side. */
    method PrepareNext(slot: nat) returns (state: Snapshot, next: Caterpillar)
      requires Valid() && slot == t && t < |vValues|
      ensures fresh(next) && next.Valid() && next.c == c && next.absorbed == Values(c, s0, n)[..slot + 1]
      ensures JournalOf(c, s0, n, chainRoot, attrVersion, slot, state)
    {
      NextStep(c, s0, n, Wiped(), slot);
      next := new Caterpillar.Clone(cat);
      next.Advance(slot, vValues[slot]);
      var bytes := next.ToBytes();
      state := Snapshot(c.prg(sSeeds[slot]).1, slot + 1, bytes, chainRoot, attrVersion);
    }

    /** Journals the current slot. On success the slot's secrets and all earlier ones are gone, the
        ratchet head is the next slot's seed and the slot joins the journaled ones, each larger than the
        one before; on failure nothing in memory moved. */
    method JournalFinalizedSigning(slot: nat, outcome: Persist) returns (r: Option<Snapshot>)
      requires Valid() && slot == t && t < |vValues|
      modifies this`sCurr, this`t, this`cat, this`vValues, this`sSeeds, this`disk, this`journaled
      ensures Valid()
      ensures outcome.Durable? ==>
        && r.Some? && disk == r && r.value.t == t && r.value.sCurr == sCurr
        && JournalOf(c, s0, n, chainRoot, attrVersion, slot, r.value)
        && t == slot + 1 && Wiped() == t && journaled == old(journaled) + [slot] && fresh(cat)
      ensures !outcome.Durable? ==>
        && r.None? && t == old(t) && sCurr == old(sCurr) && cat == old(cat) && journaled == old(journaled)
        && vValues == old(vValues) && sSeeds == old(sSeeds)
      ensures outcome.Failed? ==> disk == old(disk)
      ensures outcome.RenamedOnly? ==> disk.Some? && JournalOf(c, s0, n, chainRoot, attrVersion, slot, disk.value)
    {
      var state, next := PrepareNext(slot);
      if outcome.Failed? {
        return None;
      }
      disk := Some(state);
      if outcome.RenamedOnly? {
        return None;
      }
      Commit(slot, state.sCurr, next);
      return Some(state);
    }
  }

  /** The path a signer in a valid state reads for slot `t` leads to the enrolled chain root exactly when
      nothing has been wiped (given nonzero slot values and a collision-free node hash). */
  lemma PathValidIffUnwiped(c: Chain, s0: Digest, n: nat, t: nat, w: nat)
    requires Injective(c.node) && w <= t < n <= Pow2(c.depth)
    requires forall i :: 0 <= i < n ==> Values(c, s0, n)[i] != ZERO_VALUE
    ensures var vs := Wipe(Values(c, s0, n), w);
            ChainRoot(c, Values(c, s0, n)) == Fold(c.node, vs[t], Path(c.node, ZERO_VALUE, vs, 0, t, c.depth),
                                                   Bits(t, c.depth))
            <==> w == 0
  {
    var values := Values(c, s0, n);
    var vs := Wipe(values, w);
    PathFolds(c, vs, t);
    if w == 0 {
      assert vs == values;
    } else {
      assert values[0] != ZERO_VALUE == vs[0];
      AncTop(0, c.depth);
      if ChainRoot(c, vs) == ChainRoot(c, values) {
        NodeBinding(c.node, ZERO_VALUE, vs, values, c.depth, 0, 0);
      }
    }
  }
}
