/** What every registry operation keeps about a petition: its roots, counts and trees are those of a
    replay of its Active batches. */
module PetitionInvariant {
  import opened Merkle
  import opened Field
  import opened Wrappers
  import opened Imt
  import opened Predicate
  import opened Blob
  import opened Petition

  // ----- replaying records -----

  function LeavesOf(d: Deployment, rs: seq<Record>): (r: seq<nat>)
    ensures |r| == |rs|
  {
    seq(|rs|, i requires 0 <= i < |rs| => LeafOf(d, rs[i]) as nat)
  }

  function TagsOf(rs: seq<Record>): (r: seq<nat>)
    ensures |r| == |rs|
  {
    seq(|rs|, i requires 0 <= i < |rs| => FromBe(rs[i].identityTag) as nat)
  }

  /** A replay succeeds exactly when both trees take all their values, and then builds both. */
  lemma {:induction false} ReplayIsInsertAll(d: Deployment, t: Trees, rs: seq<Record>)
    ensures Replay(d, t, rs).Ok? <==>
            InsertAll(d.imt, t.running, LeavesOf(d, rs)).Ok? && InsertAll(d.imt, t.idTag, TagsOf(rs)).Ok?
    ensures Replay(d, t, rs).Ok? ==>
            Replay(d, t, rs).value ==
            Trees(InsertAll(d.imt, t.running, LeavesOf(d, rs)).value, InsertAll(d.imt, t.idTag, TagsOf(rs)).value)
    decreases |rs|
  {
    if |rs| != 0 {
      assert LeavesOf(d, rs)[1..] == LeavesOf(d, rs[1..]) && TagsOf(rs)[1..] == TagsOf(rs[1..]);
      assert LeavesOf(d, rs)[0] == LeafOf(d, rs[0]) && TagsOf(rs)[0] == FromBe(rs[0].identityTag);
      if InsertRecord(d, t, rs[0]).Ok? {
        ReplayIsInsertAll(d, InsertRecord(d, t, rs[0]).value, rs[1..]);
      }
    }
  }

  lemma {:induction false} ReplayConcat(d: Deployment, t: Trees, a: seq<Record>, b: seq<Record>)
    ensures Replay(d, t, a + b) == match Replay(d, t, a) case Err(e) => Err(e) case Ok(u) => Replay(d, u, b)
    decreases |a|
  {
    if |a| == 0 {
      assert a + b == b;
    } else {
      assert (a + b)[1..] == a[1..] + b;
      if InsertRecord(d, t, a[0]).Ok? {
        ReplayConcat(d, InsertRecord(d, t, a[0]).value, a[1..], b);
      }
    }
  }

  /** Trees that stand for `n` records. */
  ghost predicate Sound(d: Deployment, t: Trees, n: nat) {
    && Sorted(t.running) && Sorted(t.idTag)
    && |t.running| == |t.idTag| == n + 1 <= Pow2(d.imt.depth)
  }

  lemma FreshIsSound(d: Deployment)
    ensures Sound(d, FRESH, 0)
  {
    EmptyIsSorted();
  }

  lemma ReplayKeepsSound(d: Deployment, t: Trees, n: nat, rs: seq<Record>)
    requires Sound(d, t, n) && Replay(d, t, rs).Ok?
    ensures Sound(d, Replay(d, t, rs).value, n + |rs|)
    ensures Fresh(t.running, LeavesOf(d, rs)) && Fresh(t.idTag, TagsOf(rs))
    ensures ValuesOf(Replay(d, t, rs).value.running) == ValuesOf(t.running) + LeavesOf(d, rs)
  {
    ReplayIsInsertAll(d, t, rs);
    InsertAllOutcome(d.imt, t.running, LeavesOf(d, rs));
    InsertAllOutcome(d.imt, t.idTag, TagsOf(rs));
  }

  /** Replayed records have pairwise different identity tags, none of them zero. */
  lemma ReplayedTags(d: Deployment, t: Trees, n: nat, rs: seq<Record>)
    requires Sound(d, t, n) && Replay(d, t, rs).Ok?
    ensures forall i :: 0 <= i < |rs| ==> rs[i].identityTag != 0
    ensures forall i, j :: 0 <= i < j < |rs| ==> rs[i].identityTag != rs[j].identityTag
  {
    ReplayKeepsSound(d, t, n, rs);
    var tags := TagsOf(rs);
    var c :| Imt.Chain(t.idTag, c);
    forall i | 0 <= i < |rs| ensures rs[i].identityTag != 0 {
      assert !Has(t.idTag, tags[i]);
      assert t.idTag[0].value == 0;
    }
    forall i, j | 0 <= i < j < |rs| ensures rs[i].identityTag != rs[j].identityTag {
      assert tags[i] != tags[j];
    }
  }

  // ----- accepted batches -----

  ghost predicate Ascending(d: Deployment, rs: seq<Record>) {
    forall i, j :: 0 <= i < j < |rs| ==> LeafOf(d, rs[i]) < LeafOf(d, rs[j])
  }

  ghost predicate InClassSet(classSet: seq<ClassTag>, rs: seq<Record>) {
    forall i :: 0 <= i < |rs| ==> rs[i].classTag in classSet
  }

  /** Re-execution accepts exactly the replays of records of the petition's classes in strict leaf order. */
  lemma {:induction false} ExecuteIsReplay(d: Deployment, classSet: seq<ClassTag>, prev: Option<Fr>, t: Trees,
                                           rs: seq<Record>)
    ensures Execute(d, classSet, prev, t, rs).Ok? <==>
            && Replay(d, t, rs).Ok? && InClassSet(classSet, rs) && Ascending(d, rs)
            && (prev.Some? && |rs| > 0 ==> prev.value < LeafOf(d, rs[0]))
    ensures Execute(d, classSet, prev, t, rs).Ok? ==> Execute(d, classSet, prev, t, rs).value == Replay(d, t, rs).value
    decreases |rs|
  {
    if |rs| != 0 {
      var rest := rs[1..];
      if InsertRecord(d, t, rs[0]).Ok? {
        ExecuteIsReplay(d, classSet, Some(LeafOf(d, rs[0])), InsertRecord(d, t, rs[0]).value, rest);
      }
      assert forall i :: 0 <= i < |rest| ==> rest[i] == rs[i + 1];
      if Ascending(d, rest) && (|rest| > 0 ==> LeafOf(d, rs[0]) < LeafOf(d, rest[0])) {
        forall i, j | 0 <= i < j < |rs| ensures LeafOf(d, rs[i]) < LeafOf(d, rs[j]) {
          assert LeafOf(d, rest[0]) <= LeafOf(d, rest[j - 1]);
          if i > 0 {
            assert LeafOf(d, rest[i - 1]) < LeafOf(d, rest[j - 1]);
          }
        }
      }
      if Ascending(d, rs) {
        forall i, j | 0 <= i < j < |rest| ensures LeafOf(d, rest[i]) < LeafOf(d, rest[j]) {
          assert LeafOf(d, rs[i + 1]) < LeafOf(d, rs[j + 1]);
        }
      }
      if InClassSet(classSet, rs) {
        forall i | 0 <= i < |rest| ensures rest[i].classTag in classSet {
          assert rs[i + 1].classTag in classSet;
        }
      }
      if InClassSet(classSet, rest) && rs[0].classTag in classSet {
        forall i | 0 <= i < |rs| ensures rs[i].classTag in classSet {
          if i > 0 {
            assert rest[i - 1].classTag in classSet;
          }
        }
      }
    }
  }

  // ----- histories -----

  /** The trees after all batches of a history, replayed in order from empty trees. */
  function TreesAfter(d: Deployment, hs: seq<seq<Record>>): Result<Trees, Error>
    decreases |hs|
  {
    if |hs| == 0 then Ok(FRESH)
    else match TreesAfter(d, hs[..|hs| - 1])
      case Err(e) => Err(e)
      case Ok(t) => Replay(d, t, hs[|hs| - 1])
  }

  function RecordCount(hs: seq<seq<Record>>): nat {
    if |hs| == 0 then 0 else RecordCount(hs[..|hs| - 1]) + |hs[|hs| - 1]|
  }

  function Flat(hs: seq<seq<Record>>): (r: seq<Record>)
    ensures |r| == RecordCount(hs)
  {
    if |hs| == 0 then [] else Flat(hs[..|hs| - 1]) + hs[|hs| - 1]
  }

  lemma {:induction false} TreesAfterIsReplay(d: Deployment, hs: seq<seq<Record>>)
    ensures TreesAfter(d, hs) == Replay(d, FRESH, Flat(hs))
  {
    if |hs| != 0 {
      var front, last := hs[..|hs| - 1], hs[|hs| - 1];
      TreesAfterIsReplay(d, front);
      ReplayConcat(d, FRESH, Flat(front), last);
    }
  }

  lemma TreesAfterSound(d: Deployment, hs: seq<seq<Record>>)
    requires TreesAfter(d, hs).Ok?
    ensures Sound(d, TreesAfter(d, hs).value, RecordCount(hs))
  {
    TreesAfterIsReplay(d, hs);
    FreshIsSound(d);
    ReplayKeepsSound(d, FRESH, 0, Flat(hs));
  }

  /** Batch `i` of the history: accepted on top of the batches before it, and recorded with the roots,
      counts and versioned hash that belong to it. */
  ghost predicate BatchHolds(d: Deployment, classSet: seq<ClassTag>, hs: seq<seq<Record>>, i: nat, b: BatchRecord)
    requires i < |hs|
  {
    var before, after := TreesAfter(d, hs[..i]), TreesAfter(d, hs[..i + 1]);
    && before.Ok? && after.Ok? && 1 <= |hs[i]| <= BATCH_SIZE_MAX
    && InClassSet(classSet, hs[i]) && Ascending(d, hs[i])
    && b.versionedHash == VersionedHash(d.blob, EncodedBlob(hs[i]))
    && b.priorRunningRoot == RootOf(d.imt, before.value.running)
    && b.newRunningRoot == RootOf(d.imt, after.value.running)
    && b.priorIdTagRoot == RootOf(d.imt, before.value.idTag) && b.newIdTagRoot == RootOf(d.imt, after.value.idTag)
    && b.priorLeafCount == RecordCount(hs[..i]) && b.newLeafCount == RecordCount(hs[..i + 1])
  }

  ghost predicate AllBatchesHold(d: Deployment, classSet: seq<ClassTag>, hs: seq<seq<Record>>,
                                 batches: seq<BatchRecord>)
    requires |hs| == |batches|
  {
    forall i {:trigger BatchHolds(d, classSet, hs, i, batches[i])} :: 0 <= i < |hs| ==>
      BatchHolds(d, classSet, hs, i, batches[i])
  }

  /** The first `k` batches are Active, the others repudiated. */
  ghost predicate ActivePrefix(batches: seq<BatchRecord>, k: nat) {
    k <= |batches| && forall i :: 0 <= i < |batches| ==> (batches[i].active <==> i < k)
  }

  /** A petition never runs ahead of its clock. */
  ghost predicate Timed(r: PetitionRecord, block: nat) {
    && (Rank(r.state) >= 2 ==> r.closeAt <= block)
    && (Rank(r.state) >= 4 ==> CooldownEnd(r.closeAt) <= block)
  }

  ghost predicate WellFormed(r: PetitionRecord) {
    && |r.thresholds| == |r.classSet| && r.bounty < TWO_128 && r.closeAt < TWO_64
    && (forall i :: 0 <= i < |r.thresholds| ==> 1 <= r.thresholds[i] < TWO_64)
    && (forall i, j :: 0 <= i < j < |r.classSet| ==> r.classSet[i] < r.classSet[j])
  }

  /** The invariant of a petition with `k` Active batches out of the history `hs`. */
  ghost predicate Holds(d: Deployment, en: PetitionEntry, hs: seq<seq<Record>>, k: nat, block: nat) {
    && |hs| == |en.batches| && ActivePrefix(en.batches, k)
    && AllBatchesHold(d, en.record.classSet, hs, en.batches)
    && TreesAfter(d, hs[..k]) == Ok(en.trees)
    && en.record.leafCount == RecordCount(hs[..k])
    && en.record.idTagRoot == RootOf(d.imt, en.trees.idTag)
    && en.record.runningRoot == (if en.record.state == Unresolved then TOMBSTONE_MARKER
                                 else RootOf(d.imt, en.trees.running))
    && (Rank(en.record.state) <= 1 ==> k == |hs|)
    && Timed(en.record, block) && WellFormed(en.record)
  }

  ghost predicate Inv(d: Deployment, en: PetitionEntry, hs: seq<seq<Record>>, block: nat) {
    exists k: nat :: Holds(d, en, hs, k, block)
  }

  // ----- the lifecycle -----

  /** Stepping never lowers the rank, keeps to the clock, and stays in the signing phase only before the
      close block. */
  lemma {:induction false} SettleMonotone(s: PetitionState, closeAt: nat, block: nat)
    ensures Rank(s) <= Rank(Settle(s, closeAt, block))
    ensures Rank(s) >= 4 ==> Settle(s, closeAt, block) == s
    ensures Settle(s, closeAt, block) == SigningOpen ==> block < closeAt && Rank(s) <= 1
    ensures Settle(s, closeAt, block) != Registered && Settle(s, closeAt, block) != SigningClosed
    ensures Rank(Settle(s, closeAt, block)) >= 2 ==> closeAt <= block || Rank(s) >= 2
    ensures Rank(Settle(s, closeAt, block)) >= 4 ==> CooldownEnd(closeAt) <= block || Rank(s) >= 4
    decreases 5 - Rank(s)
  {
    match NextState(s, closeAt, block)
    case None =>
    case Some(next) => SettleMonotone(next, closeAt, block);
  }

  /** Where stepping ends, for every stage and block. */
  lemma {:induction false} SettleExact(s: PetitionState, closeAt: nat, block: nat)
    ensures Settle(s, closeAt, block) ==
            if Rank(s) >= 4 then s
            else if Rank(s) <= 1 && block < closeAt then SigningOpen
            else if block < (closeAt + COOLDOWN_BLOCKS) % TWO_64 then Cooldown
            else DisputeWindow
    decreases 5 - Rank(s)
  {
    match NextState(s, closeAt, block)
    case None =>
    case Some(next) => SettleExact(next, closeAt, block);
  }

  lemma SteppedHolds(d: Deployment, en: PetitionEntry, hs: seq<seq<Record>>, k: nat, last: nat, block: nat)
    requires Holds(d, en, hs, k, last) && last <= block
    ensures Holds(d, Stepped(en, block), hs, k, block)
  {
    SettleMonotone(en.record.state, en.record.closeAt, block);
  }

  // ----- publishing -----

  lemma {:induction false} BatchesBelowRecords(hs: seq<seq<Record>>)
    requires forall i :: 0 <= i < |hs| ==> |hs[i]| >= 1
    ensures |hs| <= RecordCount(hs)
  {
    if |hs| != 0 {
      assert forall i :: 0 <= i < |hs| - 1 ==> hs[..|hs| - 1][i] == hs[i];
      BatchesBelowRecords(hs[..|hs| - 1]);
    }
  }

  /** The tree of a deployment has no more leaves than there are batch indices; depth 24 qualifies. */
  ghost predicate IndexableTree(d: Deployment) {
    Pow2(d.imt.depth) <= TWO_32
  }

  lemma Depth24IsIndexable(d: Deployment)
    requires d.imt.depth == 24
    ensures IndexableTree(d)
  {
    assert Pow2(8) == 0x100;
    assert Pow2(16) == 0x1_0000;
  }

  /** The batch list never runs out of 32-bit indices: each batch puts a leaf into the tree. */
  lemma BatchIndexFits(d: Deployment, en: PetitionEntry, hs: seq<seq<Record>>, k: nat, block: nat)
    requires IndexableTree(d) && Holds(d, en, hs, k, block) && k == |hs|
    ensures |en.batches| < TWO_32
  {
    forall i | 0 <= i < |hs| ensures |hs[i]| >= 1 {
      assert BatchHolds(d, en.record.classSet, hs, i, en.batches[i]);
    }
    BatchesBelowRecords(hs);
    assert hs[..k] == hs;
    TreesAfterSound(d, hs);
  }

  /** Where a publication can fail: before anything was written, or at the batch index. */
  lemma PublishFailure(d: Deployment, en: PetitionEntry, relayer: Address, sub: BatchSubmission, block: nat)
    requires Publish(d, en, relayer, sub, block).result.Err?
    ensures Publish(d, en, relayer, sub, block).entry == Stepped(en, block)
         || (Stepped(en, block).record.state == SigningOpen && |en.batches| >= TWO_32)
  {
  }

  /** What a successful publication has checked and written. */
  lemma PublishSuccess(d: Deployment, en: PetitionEntry, relayer: Address, sub: BatchSubmission, block: nat)
    requires Publish(d, en, relayer, sub, block).result.Ok?
    ensures var s, o := Stepped(en, block), Publish(d, en, relayer, sub, block);
            var out, b := o.entry, o.result.value;
            && s.record.state == SigningOpen && 1 <= |sub.records| <= BATCH_SIZE_MAX
            && Execute(d, s.record.classSet, None, s.trees, sub.records) == Ok(out.trees)
            && out.batches == s.batches + [b] && b.active
            && b.versionedHash == VersionedHash(d.blob, EncodedBlob(sub.records))
            && b.priorRunningRoot == s.record.runningRoot && b.priorIdTagRoot == s.record.idTagRoot
            && b.priorLeafCount == s.record.leafCount && b.newLeafCount == s.record.leafCount + |sub.records|
            && b.newRunningRoot == RootOf(d.imt, out.trees.running) && b.newIdTagRoot == RootOf(d.imt, out.trees.idTag)
            && out.record == s.record.(runningRoot := b.newRunningRoot, idTagRoot := b.newIdTagRoot,
                                       leafCount := b.newLeafCount)
  {
  }

  /** A failed publication leaves roots, trees, count and batch list as they were. */
  lemma FailedPublishKeepsState(d: Deployment, en: PetitionEntry, hs: seq<seq<Record>>, relayer: Address,
                                sub: BatchSubmission, last: nat, block: nat)
    requires IndexableTree(d) && Inv(d, en, hs, last) && last <= block
    requires Publish(d, en, relayer, sub, block).result.Err?
    ensures Publish(d, en, relayer, sub, block).entry == Stepped(en, block)
  {
    PublishFailure(d, en, relayer, sub, block);
    var k: nat :| Holds(d, en, hs, k, last);
    SteppedHolds(d, en, hs, k, last, block);
    if Stepped(en, block).record.state == SigningOpen {
      BatchIndexFits(d, Stepped(en, block), hs, k, block);
    }
  }

  lemma HistoryGrows(d: Deployment, hs: seq<seq<Record>>, rs: seq<Record>, i: nat)
    requires i <= |hs|
    ensures (hs + [rs])[..i] == hs[..i]
    ensures (hs + [rs])[..|hs|] == hs && (hs + [rs])[..|hs| + 1] == hs + [rs]
    ensures RecordCount(hs + [rs]) == RecordCount(hs) + |rs|
    ensures TreesAfter(d, hs).Ok? ==> TreesAfter(d, hs + [rs]) == Replay(d, TreesAfter(d, hs).value, rs)
  {
    assert (hs + [rs])[..|hs + [rs]| - 1] == hs;
  }

  lemma OldBatchesHold(d: Deployment, classSet: seq<ClassTag>, hs: seq<seq<Record>>, rs: seq<Record>, i: nat,
                       b: BatchRecord)
    requires i < |hs| && BatchHolds(d, classSet, hs, i, b)
    ensures BatchHolds(d, classSet, hs + [rs], i, b)
  {
    HistoryGrows(d, hs, rs, i);
    HistoryGrows(d, hs, rs, i + 1);
  }

  lemma NewBatchHolds(d: Deployment, classSet: seq<ClassTag>, hs: seq<seq<Record>>, rs: seq<Record>, b: BatchRecord)
    requires TreesAfter(d, hs).Ok? && 1 <= |rs| <= BATCH_SIZE_MAX
    requires Execute(d, classSet, None, TreesAfter(d, hs).value, rs).Ok?
    requires var t, u := TreesAfter(d, hs).value, Execute(d, classSet, None, TreesAfter(d, hs).value, rs).value;
             && b.versionedHash == VersionedHash(d.blob, EncodedBlob(rs))
             && b.priorRunningRoot == RootOf(d.imt, t.running) && b.newRunningRoot == RootOf(d.imt, u.running)
             && b.priorIdTagRoot == RootOf(d.imt, t.idTag) && b.newIdTagRoot == RootOf(d.imt, u.idTag)
             && b.priorLeafCount == RecordCount(hs) && b.newLeafCount == RecordCount(hs) + |rs|
    ensures BatchHolds(d, classSet, hs + [rs], |hs|, b)
    ensures TreesAfter(d, hs + [rs]) == Ok(Execute(d, classSet, None, TreesAfter(d, hs).value, rs).value)
  {
    ExecuteIsReplay(d, classSet, None, TreesAfter(d, hs).value, rs);
    HistoryGrows(d, hs, rs, |hs|);
  }

  lemma ExtendedBatchesHold(d: Deployment, classSet: seq<ClassTag>, hs: seq<seq<Record>>, batches: seq<BatchRecord>,
                            rs: seq<Record>, b: BatchRecord)
    requires |hs| == |batches| && AllBatchesHold(d, classSet, hs, batches)
    requires BatchHolds(d, classSet, hs + [rs], |hs|, b)
    ensures AllBatchesHold(d, classSet, hs + [rs], batches + [b])
  {
    forall i | 0 <= i < |hs| + 1 ensures BatchHolds(d, classSet, hs + [rs], i, (batches + [b])[i]) {
      if i < |hs| {
        assert BatchHolds(d, classSet, hs, i, batches[i]);
        OldBatchesHold(d, classSet, hs, rs, i, batches[i]);
      }
    }
  }

  /** A published batch extends the history: roots, counts and trees are those of the longer replay. */
  lemma PublishHolds(d: Deployment, en: PetitionEntry, hs: seq<seq<Record>>, relayer: Address, sub: BatchSubmission,
                     last: nat, block: nat)
    requires Inv(d, en, hs, last) && last <= block
    requires Publish(d, en, relayer, sub, block).result.Ok?
    ensures Inv(d, Publish(d, en, relayer, sub, block).entry, hs + [sub.records], block)
    ensures block < en.record.closeAt
  {
    var k: nat :| Holds(d, en, hs, k, last);
    SettleMonotone(en.record.state, en.record.closeAt, block);
    SteppedHolds(d, en, hs, k, last, block);
    PublishSuccess(d, en, relayer, sub, block);
    var s, out := Stepped(en, block), Publish(d, en, relayer, sub, block).entry;
    assert hs[..k] == hs;
    var b := out.batches[|hs|];
    NewBatchHolds(d, s.record.classSet, hs, sub.records, b);
    ExtendedBatchesHold(d, s.record.classSet, hs, s.batches, sub.records, b);
    HistoryGrows(d, hs, sub.records, |hs|);
    assert Holds(d, out, hs + [sub.records], k + 1, block);
  }

  // ----- disputes -----

  /** Binding of the carrier: a blob found under the versioned hash of a published batch is the blob that
      hash was computed from. Nothing is said about which record list the carrier keeps for it. */
  ghost predicate Binding(d: Deployment, blobs: Blobs, batches: seq<BatchRecord>, hs: seq<seq<Record>>) {
    && Faithful(d.blob, blobs) && |hs| == |batches|
    && forall i {:trigger BlobOf(blobs, batches[i], hs[i])} :: 0 <= i < |hs| ==> BlobOf(blobs, batches[i], hs[i])
  }

  ghost predicate BlobOf(blobs: Blobs, b: BatchRecord, rs: seq<Record>) {
    b.versionedHash in blobs ==> blobs[b.versionedHash].fes == EncodedBlob(rs)
  }

  /** The carrier still serves what was published in the first `k` batches. */
  ghost predicate Available(blobs: Blobs, batches: seq<BatchRecord>, hs: seq<seq<Record>>, k: nat)
    requires k <= |hs| == |batches|
  {
    forall i {:trigger batches[i].versionedHash} :: 0 <= i < k ==>
      batches[i].versionedHash in blobs && blobs[batches[i].versionedHash].records == hs[i]
  }

  lemma SameBlobNoZeroTag(a: seq<Record>, b: seq<Record>)
    requires |a| <= RECORDS_PER_BLOB && |b| <= RECORDS_PER_BLOB && EncodedBlob(a) == EncodedBlob(b)
    requires forall i :: 0 <= i < |a| ==> a[i].identityTag != 0
    requires forall i :: 0 <= i < |b| ==> b[i].identityTag != 0
    ensures a == b
  {
    if |a| < |b| {
      assert b[|a|].identityTag != 0;
      SameBlobSameRecords(a, b);
    } else if |b| < |a| {
      assert a[|b|].identityTag != 0;
      SameBlobSameRecords(b, a);
    } else {
      SameBlobSameRecords(a, b);
      assert b[..|a|] == b;
    }
  }

  lemma ReplayableIsPublished(d: Deployment, t: Trees, n: nat, fetched: seq<Record>, published: seq<Record>)
    requires Sound(d, t, n) && Replay(d, t, fetched).Ok? && Replay(d, t, published).Ok?
    requires |fetched| <= RECORDS_PER_BLOB && |published| <= BATCH_SIZE_MAX
    requires EncodedBlob(fetched) == EncodedBlob(published)
    ensures fetched == published
  {
    ReplayedTags(d, t, n, fetched);
    ReplayedTags(d, t, n, published);
    SameBlobNoZeroTag(fetched, published);
  }

  lemma BindingAt(d: Deployment, blobs: Blobs, batches: seq<BatchRecord>, hs: seq<seq<Record>>, i: nat)
    requires Binding(d, blobs, batches, hs) && i < |hs| && batches[i].versionedHash in blobs
    ensures var e := blobs[batches[i].versionedHash];
            |e.records| <= RECORDS_PER_BLOB && e.fes == EncodedBlob(hs[i])
              && EncodedBlob(e.records) == EncodedBlob(hs[i])
  {
    assert BlobOf(blobs, batches[i], hs[i]);
  }

  /** If the records fetched for the first `j` batches replay at all, they are the published ones: a
      carrier that pads a list with zero records is caught by the identity-tag tree. */
  lemma {:induction false} FetchedIsHistory(d: Deployment, blobs: Blobs, classSet: seq<ClassTag>,
                                            batches: seq<BatchRecord>, hs: seq<seq<Record>>, j: nat)
    requires Binding(d, blobs, batches, hs) && j <= |hs|
    requires AllBatchesHold(d, classSet, hs, batches)
    requires forall i :: 0 <= i < j ==> batches[i].active
    requires FetchActive(blobs, batches[..j]).Ok? && Replay(d, FRESH, FetchActive(blobs, batches[..j]).value).Ok?
    ensures FetchActive(blobs, batches[..j]).value == Flat(hs[..j])
    decreases j
  {
    if j != 0 {
      var m := j - 1;
      assert batches[..j][..m] == batches[..m] && hs[..j][..m] == hs[..m];
      var front, last := FetchActive(blobs, batches[..m]).value, blobs[batches[m].versionedHash].records;
      ReplayConcat(d, FRESH, front, last);
      FetchedIsHistory(d, blobs, classSet, batches, hs, m);
      TreesAfterIsReplay(d, hs[..m]);
      TreesAfterSound(d, hs[..m]);
      BindingAt(d, blobs, batches, hs, m);
      assert BatchHolds(d, classSet, hs, m, batches[m]);
      ReplayableIsPublished(d, TreesAfter(d, hs[..m]).value, RecordCount(hs[..m]), last, hs[m]);
    }
  }

  /** The recorded predecessor roots are those of the replayed trees. */
  lemma RollBackRoots(d: Deployment, classSet: seq<ClassTag>, batches: seq<BatchRecord>, hs: seq<seq<Record>>, j: nat)
    requires |hs| == |batches| && j <= |hs| && TreesAfter(d, hs[..j]).Ok?
    requires AllBatchesHold(d, classSet, hs, batches)
    requires forall i :: 0 <= i < j ==> batches[i].active
    ensures var t := TreesAfter(d, hs[..j]).value;
            RollBack(d, batches[..j]) == (RootOf(d.imt, t.running), RootOf(d.imt, t.idTag), RecordCount(hs[..j]))
  {
    if j != 0 {
      assert BatchHolds(d, classSet, hs, j - 1, batches[j - 1]);
    }
  }

  lemma DisputeSuccess(d: Deployment, blobs: Blobs, en: PetitionEntry, dispute: Dispute, block: nat)
    requires DisputeBatch(d, blobs, en, dispute, block).result.Ok?
    ensures var s, out, k := Stepped(en, block), DisputeBatch(d, blobs, en, dispute, block).entry, dispute.batchIndex;
            && s.record.state == DisputeWindow && block < s.record.closeAt + RESOLUTION_DEADLINE_BLOCKS < TWO_64
            && k < |s.batches| && s.batches[k].active
            && OpeningsRefusal(d, blobs, s.batches[k].versionedHash, dispute.openings).None?
            && ViolationRefusal(d, s.record.classSet, dispute).None?
            && FetchActive(blobs, s.batches[..k]).Ok?
            && Replay(d, FRESH, FetchActive(blobs, s.batches[..k]).value) == Ok(out.trees)
            && out.batches == Repudiated(s.batches, k)
            && DisputeBatch(d, blobs, en, dispute, block).result.value
               == (out.record.runningRoot, out.record.idTagRoot, out.record.leafCount)
            && var (rr, idt, lc) := RollBack(d, s.batches[..k]);
               out.record == s.record.(runningRoot := rr, idTagRoot := idt, leafCount := lc)
  {
  }

  lemma RolledBackHolds(d: Deployment, blobs: Blobs, s: PetitionEntry, hs: seq<seq<Record>>, k: nat, j: nat,
                        out: PetitionEntry, block: nat)
    requires Holds(d, s, hs, k, block) && Binding(d, blobs, s.batches, hs) && s.record.state == DisputeWindow && j < k
    requires FetchActive(blobs, s.batches[..j]).Ok?
    requires Replay(d, FRESH, FetchActive(blobs, s.batches[..j]).value) == Ok(out.trees)
    requires out.batches == Repudiated(s.batches, j)
    requires var r := RollBack(d, s.batches[..j]);
             out.record == s.record.(runningRoot := r.0, idTagRoot := r.1, leafCount := r.2)
    ensures Holds(d, out, hs, j, block)
  {
    FetchedIsHistory(d, blobs, s.record.classSet, s.batches, hs, j);
    TreesAfterIsReplay(d, hs[..j]);
    RollBackRoots(d, s.record.classSet, s.batches, hs, j);
    RepudiatedBatchesHold(d, s.record.classSet, hs, s.batches, j);
  }

  lemma RepudiatedBatchesHold(d: Deployment, classSet: seq<ClassTag>, hs: seq<seq<Record>>, batches: seq<BatchRecord>,
                              j: nat)
    requires |hs| == |batches| && AllBatchesHold(d, classSet, hs, batches)
    ensures AllBatchesHold(d, classSet, hs, Repudiated(batches, j))
  {
    forall i | 0 <= i < |hs| ensures BatchHolds(d, classSet, hs, i, Repudiated(batches, j)[i]) {
      assert BatchHolds(d, classSet, hs, i, batches[i]);
    }
  }

  /** A successful dispute leaves exactly the batches before the disputed one Active, with the roots,
      counts and trees of their replay. */
  lemma DisputeHolds(d: Deployment, blobs: Blobs, en: PetitionEntry, hs: seq<seq<Record>>, dispute: Dispute, last: nat,
                     block: nat)
    requires Inv(d, en, hs, last) && last <= block && Binding(d, blobs, en.batches, hs)
    requires DisputeBatch(d, blobs, en, dispute, block).result.Ok?
    ensures Holds(d, DisputeBatch(d, blobs, en, dispute, block).entry, hs, dispute.batchIndex, block)
    ensures var o := DisputeBatch(d, blobs, en, dispute, block);
            o.result == Ok((o.entry.record.runningRoot, o.entry.record.idTagRoot, o.entry.record.leafCount))
  {
    var k: nat :| Holds(d, en, hs, k, last);
    SteppedHolds(d, en, hs, k, last, block);
    DisputeSuccess(d, blobs, en, dispute, block);
    RolledBackHolds(d, blobs, Stepped(en, block), hs, k, dispute.batchIndex,
                    DisputeBatch(d, blobs, en, dispute, block).entry, block);
  }

  /** A dispute succeeds only between cooldown and resolution deadline. */
  lemma DisputeInWindow(d: Deployment, blobs: Blobs, en: PetitionEntry, hs: seq<seq<Record>>, dispute: Dispute,
                        last: nat, block: nat)
    requires Inv(d, en, hs, last) && last <= block && DisputeBatch(d, blobs, en, dispute, block).result.Ok?
    ensures en.record.closeAt + COOLDOWN_BLOCKS <= block < en.record.closeAt + RESOLUTION_DEADLINE_BLOCKS
  {
    DisputeSuccess(d, blobs, en, dispute, block);
    var k: nat :| Holds(d, en, hs, k, last);
    SteppedHolds(d, en, hs, k, last, block);
    WindowBounds(Stepped(en, block).record, block);
  }

  lemma WindowBounds(r: PetitionRecord, block: nat)
    requires Timed(r, block) && Rank(r.state) >= 4 && r.closeAt + RESOLUTION_DEADLINE_BLOCKS < TWO_64
    ensures r.closeAt + COOLDOWN_BLOCKS <= block
  {
  }

  lemma {:induction false} VerifiedOpenings(d: Deployment, blobs: Blobs, vh: Bytes32, openings: seq<Opening>, i: nat)
    requires OpeningsRefusal(d, blobs, vh, openings).None? && i < |openings|
    ensures vh in blobs && Opens(blobs[vh].fes, openings[i])
  {
    if i != 0 {
      VerifiedOpenings(d, blobs, vh, openings[1..], i - 1);
    }
  }

  /** When evidence from faithful openings of an accepted batch shows a violation: only past the end of
      the batch, where the blob is padded with zero records. */
  ghost predicate PointsPastBatch(d: Deployment, classSet: seq<ClassTag>, rs: seq<Record>, dispute: Dispute) {
    var i, n := dispute.positionI, |rs|;
    match dispute.violation
    case ClassTagOutOfSet => i >= n && 0 !in classSet
    case IntraBatchDuplicateIdentityTag =>
      dispute.positionJ.Some? && dispute.positionJ.value != i && i >= n && dispute.positionJ.value >= n
    case LeafOrderingViolation =>
      dispute.positionJ == Some(i + 1) &&
      (i >= n || (i == n - 1 && LeafOf(d, rs[i]) >= LeafOf(d, ZERO_RECORD)))
  }

  /** The violation a dispute alleges is there in the records, padded with zero records. */
  ghost predicate Violates(d: Deployment, classSet: seq<ClassTag>, rs: seq<Record>, dispute: Dispute) {
    var i := dispute.positionI;
    match dispute.violation
    case ClassTagOutOfSet => PaddedRecord(rs, i).classTag !in classSet
    case IntraBatchDuplicateIdentityTag =>
      && dispute.positionJ.Some? && dispute.positionJ.value != i
      && PaddedRecord(rs, i).identityTag == PaddedRecord(rs, dispute.positionJ.value).identityTag
    case LeafOrderingViolation =>
      && dispute.positionJ == Some(i + 1)
      && LeafOf(d, PaddedRecord(rs, i + 1)) <= LeafOf(d, PaddedRecord(rs, i))
  }

  /** For any records whatsoever: faithful, complete openings pass the test exactly when the violation is there. */
  lemma ViolationMeans(d: Deployment, classSet: seq<ClassTag>, rs: seq<Record>, dispute: Dispute)
    requires Opened(dispute)
    requires forall i :: 0 <= i < |dispute.openings| ==> Opens(EncodedBlob(rs), dispute.openings[i])
    ensures ViolationRefusal(d, classSet, dispute).None? <==> Violates(d, classSet, rs, dispute)
  {
    EvidenceIsRecord(rs, dispute.openings, dispute.positionI);
    if dispute.violation != ClassTagOutOfSet && dispute.positionJ.Some? {
      EvidenceIsRecord(rs, dispute.openings, dispute.positionJ.value);
    }
  }

  ghost predicate Opened(dispute: Dispute) {
    && Evidence(dispute.openings, dispute.positionI).Some?
    && (dispute.violation != ClassTagOutOfSet && dispute.positionJ.Some? ==>
        Evidence(dispute.openings, dispute.positionJ.value).Some?)
  }

  /** An accepted batch of records, as far as disputes care. */
  ghost predicate Accepted(d: Deployment, classSet: seq<ClassTag>, rs: seq<Record>) {
    && InClassSet(classSet, rs) && Ascending(d, rs)
    && (forall i :: 0 <= i < |rs| ==> rs[i].identityTag != 0)
    && (forall i, j :: 0 <= i < j < |rs| ==> rs[i].identityTag != rs[j].identityTag)
  }

  /** The exact outcome of a dispute with faithful, complete openings against an accepted batch. */
  lemma DisputeExact(d: Deployment, classSet: seq<ClassTag>, rs: seq<Record>, dispute: Dispute)
    requires Accepted(d, classSet, rs) && Opened(dispute)
    requires forall i :: 0 <= i < |dispute.openings| ==> Opens(EncodedBlob(rs), dispute.openings[i])
    ensures ViolationRefusal(d, classSet, dispute).None? <==> PointsPastBatch(d, classSet, rs, dispute)
  {
    var i := dispute.positionI;
    EvidenceIsRecord(rs, dispute.openings, i);
    if dispute.violation != ClassTagOutOfSet && dispute.positionJ.Some? {
      var j := dispute.positionJ.value;
      EvidenceIsRecord(rs, dispute.openings, j);
      assert i < j < |rs| ==> LeafOf(d, rs[i]) < LeafOf(d, rs[j]);
    }
  }

  lemma NoViolationInside(d: Deployment, blobs: Blobs, en: PetitionEntry, hs: seq<seq<Record>>, k: nat,
                          dispute: Dispute, block: nat)
    requires Holds(d, en, hs, k, block) && Binding(d, blobs, en.batches, hs)
    requires dispute.batchIndex < |hs| && dispute.positionI < |hs[dispute.batchIndex]|
    requires dispute.positionJ.Some? ==> dispute.positionJ.value < |hs[dispute.batchIndex]|
    requires OpeningsRefusal(d, blobs, en.batches[dispute.batchIndex].versionedHash, dispute.openings).None?
    ensures ViolationRefusal(d, en.record.classSet, dispute).Some?
  {
    var j := dispute.batchIndex;
    BatchAccepted(d, en, hs, k, block, j);
    assert BlobOf(blobs, en.batches[j], hs[j]);
    forall i | 0 <= i < |dispute.openings| ensures Opens(EncodedBlob(hs[j]), dispute.openings[i]) {
      VerifiedOpenings(d, blobs, en.batches[j].versionedHash, dispute.openings, i);
    }
    if Opened(dispute) {
      DisputeExact(d, en.record.classSet, hs[j], dispute);
    }
  }

  /** An accepted batch stands: no dispute about positions below its record count succeeds, for any of the
      three violation types, whatever is opened. */
  lemma AcceptedBatchStands(d: Deployment, blobs: Blobs, en: PetitionEntry, hs: seq<seq<Record>>, dispute: Dispute,
                            last: nat, block: nat)
    requires Inv(d, en, hs, last) && last <= block && Binding(d, blobs, en.batches, hs)
    requires dispute.batchIndex < |hs| && dispute.positionI < |hs[dispute.batchIndex]|
    requires dispute.positionJ.Some? ==> dispute.positionJ.value < |hs[dispute.batchIndex]|
    ensures DisputeBatch(d, blobs, en, dispute, block).result.Err?
  {
    if DisputeBatch(d, blobs, en, dispute, block).result.Ok? {
      DisputeSuccess(d, blobs, en, dispute, block);
      var k: nat :| Holds(d, en, hs, k, last);
      NoViolationInside(d, blobs, en, hs, k, dispute, last);
    }
  }

  lemma BatchAccepted(d: Deployment, en: PetitionEntry, hs: seq<seq<Record>>, k: nat, block: nat, j: nat)
    requires Holds(d, en, hs, k, block) && j < |hs|
    ensures Accepted(d, en.record.classSet, hs[j])
  {
    assert BatchHolds(d, en.record.classSet, hs, j, en.batches[j]);
    TreesAfterSound(d, hs[..j]);
    assert hs[..j + 1][..j] == hs[..j];
    ReplayedTags(d, TreesAfter(d, hs[..j]).value, RecordCount(hs[..j]), hs[j]);
  }

  // ----- closing -----

  /** Resolution and expiry keep the history; the bounty check cannot fail, so a petition that closes pays
      out exactly its bounty, with a rebate of at most one percent, and only after the dispute window. */
  lemma ResolveHolds(d: Deployment, en: PetitionEntry, hs: seq<seq<Record>>, resolver: Address,
                     sub: ResolutionSubmission, last: nat, block: nat)
    requires Inv(d, en, hs, last) && last <= block
    ensures var o := ResolvePetition(d, en, resolver, sub, block);
            && Inv(d, o.entry, hs, block)
            && o.result != Err(BountyTooLarge)
            && (o.result.Err? ==> o.entry == Stepped(en, block))
            && (o.result.Ok? ==>
                 && en.record.closeAt + RESOLUTION_DEADLINE_BLOCKS <= block
                 && o.entry.record.state == Resolved && o.entry.trees == en.trees && o.entry.batches == en.batches
                 && o.entry.record.runningRoot == en.record.runningRoot
                 && o.result.value.amount == en.record.bounty && o.result.value.rebate == 0)
  {
    var k: nat :| Holds(d, en, hs, k, last);
    SteppedHolds(d, en, hs, k, last, block);
    var s, out := Stepped(en, block), ResolvePetition(d, en, resolver, sub, block).entry;
    assert Holds(d, out, hs, k, block);
  }

  lemma UnresolvedHolds(d: Deployment, en: PetitionEntry, hs: seq<seq<Record>>, caller: Address, gasRebate: nat,
                        last: nat, block: nat)
    requires Inv(d, en, hs, last) && last <= block
    ensures var o := MarkUnresolved(en, caller, gasRebate, block);
            && Inv(d, o.entry, hs, block)
            && o.result != Err(BountyTooLarge)
            && (o.result.Err? ==> o.entry == Stepped(en, block))
            && (o.result.Ok? ==>
                 && en.record.closeAt + RESOLUTION_DEADLINE_BLOCKS + MARK_UNRESOLVED_GRACE_BLOCKS <= block
                 && o.entry.record.state == Unresolved && o.entry.trees == en.trees && o.entry.batches == en.batches
                 && o.result.value.recipient == en.record.organizer && o.result.value.caller == caller
                 && o.result.value.rebate == (if 100 * gasRebate
                                              <= en.record.bounty then gasRebate else en.record.bounty / 100)
                 && o.result.value.amount + o.result.value.rebate == en.record.bounty
                 && 100 * o.result.value.rebate <= en.record.bounty)
  {
    var k: nat :| Holds(d, en, hs, k, last);
    SteppedHolds(d, en, hs, k, last, block);
    var s, out := Stepped(en, block), MarkUnresolved(en, caller, gasRebate, block).entry;
    assert Holds(d, out, hs, k, block);
  }
}
