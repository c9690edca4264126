/** When a dispute succeeds: the exact condition at the operation, and what it means for a correct batch. */
module DisputeOutcome {
  import opened Field
  import opened Wrappers
  import opened Predicate
  import opened Blob
  import opened Petition
  import opened PetitionInvariant

  lemma {:induction false} FetchAvailable(blobs: Blobs, batches: seq<BatchRecord>, hs: seq<seq<Record>>, j: nat)
    requires j <= |hs| == |batches| && Available(blobs, batches, hs, j)
    requires forall i :: 0 <= i < j ==> batches[i].active
    ensures FetchActive(blobs, batches[..j]) == Ok(Flat(hs[..j]))
    decreases j
  {
    if j != 0 {
      var m := j - 1;
      FetchAvailable(blobs, batches, hs, m);
      assert batches[..j][..m] == batches[..m] && hs[..j][..m] == hs[..m];
      assert batches[m].versionedHash in blobs;
    }
  }

  /** The roll-back of an available history always succeeds. */
  lemma RebuildSucceeds(d: Deployment, blobs: Blobs, en: PetitionEntry, hs: seq<seq<Record>>, k: nat, j: nat,
                        block: nat)
    requires Holds(d, en, hs, k, block) && j < k && Available(blobs, en.batches, hs, j)
    ensures FetchActive(blobs, en.batches[..j]) == Ok(Flat(hs[..j])) && Replay(d, FRESH, Flat(hs[..j])).Ok?
  {
    FetchAvailable(blobs, en.batches, hs, j);
    assert BatchHolds(d, en.record.classSet, hs, j, en.batches[j]);
    TreesAfterIsReplay(d, hs[..j]);
  }

  /** Without the openings it needs, a dispute shows nothing. */
  lemma UnopenedIsRefused(d: Deployment, classSet: seq<ClassTag>, dispute: Dispute)
    requires !Opened(dispute)
    ensures ViolationRefusal(d, classSet, dispute).Some?
  {
  }

  /** The violation test against a published batch, whatever was opened. */
  lemma ViolationExact(d: Deployment, blobs: Blobs, en: PetitionEntry, hs: seq<seq<Record>>, k: nat, dispute: Dispute,
                       block: nat)
    requires Holds(d, en, hs, k, block) && Binding(d, blobs, en.batches, hs) && dispute.batchIndex < k
    requires OpeningsRefusal(d, blobs, en.batches[dispute.batchIndex].versionedHash, dispute.openings).None?
    ensures ViolationRefusal(d, en.record.classSet, dispute).None?
       <==> Opened(dispute) && PointsPastBatch(d, en.record.classSet, hs[dispute.batchIndex], dispute)
  {
    var j := dispute.batchIndex;
    BatchAccepted(d, en, hs, k, block, j);
    assert BlobOf(blobs, en.batches[j], hs[j]);
    forall i | 0 <= i < |dispute.openings| ensures Opens(EncodedBlob(hs[j]), dispute.openings[i]) {
      VerifiedOpenings(d, blobs, en.batches[j].versionedHash, dispute.openings, i);
    }
    if Opened(dispute) {
      DisputeExact(d, en.record.classSet, hs[j], dispute);
    } else {
      UnopenedIsRefused(d, en.record.classSet, dispute);
    }
  }

  /** Time and target of a dispute are in order. */
  ghost predicate Disputable(r: PetitionRecord, k: nat, dispute: Dispute, block: nat) {
    && r.state == DisputeWindow && block < r.closeAt + RESOLUTION_DEADLINE_BLOCKS < TWO_64
    && dispute.batchIndex < k
  }

  /** The operation, in terms of the stepped petition. */
  lemma DisputeByParts(d: Deployment, blobs: Blobs, en: PetitionEntry, k: nat, dispute: Dispute, block: nat)
    requires ActivePrefix(Stepped(en, block).batches, k)
    ensures var s := Stepped(en, block);
            DisputeBatch(d, blobs, en, dispute, block).result.Ok? <==>
              && Disputable(s.record, k, dispute, block)
              && OpeningsRefusal(d, blobs, s.batches[dispute.batchIndex].versionedHash, dispute.openings).None?
              && ViolationRefusal(d, s.record.classSet, dispute).None?
              && FetchActive(blobs, s.batches[..dispute.batchIndex]).Ok?
              && Replay(d, FRESH, FetchActive(blobs, s.batches[..dispute.batchIndex]).value).Ok?
  {
  }

  /** The exact outcome of a dispute on a consistent petition whose earlier blobs are available: it succeeds if
      and only if it comes in time, names an Active batch, all its openings verify, it opens what it names, and
      what it names lies past the end of the batch. */
  lemma DisputeSucceedsIff(d: Deployment, blobs: Blobs, en: PetitionEntry, hs: seq<seq<Record>>, k: nat,
                           dispute: Dispute, last: nat, block: nat)
    requires Holds(d, en, hs, k, last) && last <= block && Binding(d, blobs, en.batches, hs)
    requires dispute.batchIndex < k ==> Available(blobs, en.batches, hs, dispute.batchIndex)
    ensures DisputeBatch(d, blobs, en, dispute, block).result.Ok? <==>
              && Disputable(Stepped(en, block).record, k, dispute, block)
              && OpeningsRefusal(d, blobs, en.batches[dispute.batchIndex].versionedHash, dispute.openings).None?
              && Opened(dispute)
              && PointsPastBatch(d, en.record.classSet, hs[dispute.batchIndex], dispute)
  {
    var s, j := Stepped(en, block), dispute.batchIndex;
    SteppedHolds(d, en, hs, k, last, block);
    DisputeByParts(d, blobs, en, k, dispute, block);
    if j < k {
      RebuildSucceeds(d, blobs, s, hs, k, j, block);
      if OpeningsRefusal(d, blobs, s.batches[j].versionedHash, dispute.openings).None? {
        ViolationExact(d, blobs, s, hs, k, dispute, block);
      }
    }
  }

  // ----- the failing inputs -----

  /** What the carrier hands out for `n` field elements from `base` on. */
  function CarrierOpenings(h: BlobHash, vh: Bytes32, fes: seq<Fe>, base: nat, n: nat): (os: seq<Opening>)
    requires base + n <= |fes|
    ensures |os| == n
  {
    seq(n, i requires 0 <= i < n => Opening(base + i, fes[base + i], h.tag(vh, base + i, fes[base + i])))
  }

  lemma {:induction false} CarrierCount(h: BlobHash, vh: Bytes32, fes: seq<Fe>, base: nat, n: nat, index: nat)
    requires base + n <= |fes|
    ensures Count(CarrierOpenings(h, vh, fes, base, n), index) == if base <= index < base + n then 1 else 0
  {
    if n != 0 {
      var os := CarrierOpenings(h, vh, fes, base, n);
      assert os[..n - 1] == CarrierOpenings(h, vh, fes, base, n - 1);
      CarrierCount(h, vh, fes, base, n - 1, index);
    }
  }

  lemma {:induction false} CarrierVerifies(d: Deployment, blobs: Blobs, vh: Bytes32, os: seq<Opening>)
    requires vh in blobs
    requires forall i :: 0 <= i < |os| ==> VerifyOpening(d.blob, blobs, vh, os[i]).None?
    ensures OpeningsRefusal(d, blobs, vh, os).None?
  {
    if |os| != 0 {
      CarrierVerifies(d, blobs, vh, os[1..]);
    }
  }

  /** The dispute that names the first two positions past the end of batch `j` as duplicates, with the carrier's
      own eight openings. */
  function PaddingDispute(h: BlobHash, vh: Bytes32, rs: seq<Record>, j: nat): Dispute
    requires |rs| <= BATCH_SIZE_MAX
  {
    var n := |rs|;
    Dispute(j, IntraBatchDuplicateIdentityTag, n, Some(n + 1),
            CarrierOpenings(h, vh, EncodedBlob(rs), FE_PER_RECORD * n, 8))
  }

  lemma PaddingIsOpened(h: BlobHash, vh: Bytes32, rs: seq<Record>, j: nat)
    requires |rs| <= BATCH_SIZE_MAX
    ensures Opened(PaddingDispute(h, vh, rs, j))
  {
    var n, fes := |rs|, EncodedBlob(rs);
    forall index: nat | index < BLOB_FES
      ensures Count(CarrierOpenings(h, vh, fes, FE_PER_RECORD * n, 8), index)
           == if FE_PER_RECORD * n <= index < FE_PER_RECORD * n + 8 then 1 else 0
    {
      CarrierCount(h, vh, fes, FE_PER_RECORD * n, 8, index);
    }
  }

  /** Every Active batch whose blob is available falls to that dispute while the window is open, although every
      published batch is correct; only the batches before it stay Active. */
  lemma EveryBatchFalls(d: Deployment, blobs: Blobs, en: PetitionEntry, hs: seq<seq<Record>>, k: nat, j: nat, last: nat,
                        block: nat)
    requires Holds(d, en, hs, k, last) && last <= block && Binding(d, blobs, en.batches, hs)
    requires j < k && Available(blobs, en.batches, hs, j + 1)
    requires Stepped(en, block).record.state == DisputeWindow
    requires block < en.record.closeAt + RESOLUTION_DEADLINE_BLOCKS < TWO_64
    ensures |hs[j]| <= BATCH_SIZE_MAX
    ensures var o := DisputeBatch(d, blobs, en, PaddingDispute(d.blob, en.batches[j].versionedHash, hs[j], j), block);
            o.result.Ok? && Holds(d, o.entry, hs, j, block)
  {
    assert BatchHolds(d, en.record.classSet, hs, j, en.batches[j]);
    var vh := en.batches[j].versionedHash;
    assert vh in blobs && BlobOf(blobs, en.batches[j], hs[j]);
    var dispute := PaddingDispute(d.blob, vh, hs[j], j);
    PaddingIsOpened(d.blob, vh, hs[j], j);
    CarrierVerifies(d, blobs, vh, dispute.openings);
    DisputeSucceedsIff(d, blobs, en, hs, k, dispute, last, block);
    DisputeHolds(d, blobs, en, hs, dispute, last, block);
  }
}
