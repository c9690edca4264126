/** The blob payload of a batch: 96-byte records spread over 31-byte content chunks of 32-byte field
    elements, what openings of such a blob reveal, and the carrier that holds blobs. */
module Blob {
  import opened Field
  import opened Wrappers
  import opened Predicate

  const RECORD_LEN := 96
  const RECORDS_PER_BLOB := 1000
  const FE_PER_RECORD := 4
  const CONTENT_PER_FE := 31
  const BLOB_FES := 4000

  /** A 32-byte field element. */
  type Fe = s: seq<byte> | |s| == 32 witness seq(32, i => 0)

  datatype Record = Record(nullifier: Bytes32, identityTag: Bytes32, classTag: ClassTag)

  const ZERO_RECORD := Record(0, 0, 0)

  datatype BlobError = Capacity | Malformed | InvalidOpening | NotFound

  // ----- records -----

  function Zeros(n: nat): (s: seq<byte>)
    ensures |s| == n && forall i :: 0 <= i < n ==> s[i] == 0
  {
    seq(n, i => 0)
  }

  function EncodeRecord(r: Record): (s: seq<byte>)
    ensures |s| == RECORD_LEN
  {
    BeBytes(r.nullifier, 32) + BeBytes(r.identityTag, 32) + BeBytes(r.classTag, 2) + Zeros(30)
  }

  function DecodeRecord(s: seq<byte>): Record
    requires |s| == RECORD_LEN
  {
    Pow256Values();
    BeValueBound(s[0..32]);
    BeValueBound(s[32..64]);
    BeValueBound(s[64..66]);
    Record(BeValue(s[0..32]), BeValue(s[32..64]), BeValue(s[64..66]))
  }

  lemma RecordRoundTrip(r: Record)
    ensures DecodeRecord(EncodeRecord(r)) == r
  {
    Pow256Values();
    var s := EncodeRecord(r);
    assert s[0..32] == BeBytes(r.nullifier, 32) && s[32..64] == BeBytes(r.identityTag, 32)
      && s[64..66] == BeBytes(r.classTag, 2);
    BeValueOfBytes(r.nullifier, 32);
    BeValueOfBytes(r.identityTag, 32);
    BeValueOfBytes(r.classTag, 2);
  }

  lemma {:induction false} BeBytesZero(k: nat)
    ensures BeBytes(0, k) == Zeros(k)
  {
    if k != 0 {
      BeBytesZero(k - 1);
    }
  }

  lemma ZeroRecordBytes()
    ensures EncodeRecord(ZERO_RECORD) == Zeros(RECORD_LEN)
  {
    BeBytesZero(32);
    BeBytesZero(2);
  }

  // ----- field elements -----

  /** Chunk `j` of a record's bytes: a zero byte, up to 31 content bytes, zero padding. */
  function Chunk(bytes: seq<byte>, j: nat): (fe: Fe) {
    seq(32, q requires q >= 0 =>
          if q >= 1 && CONTENT_PER_FE * j + q - 1 < |bytes| then bytes[CONTENT_PER_FE * j + q - 1] else 0)
  }

  /** The content bytes of four consecutive field elements. */
  function Gather(f: seq<Fe>): (s: seq<byte>)
    requires |f| == FE_PER_RECORD
    ensures |s| == RECORD_LEN
  {
    seq(RECORD_LEN, c requires 0 <= c < RECORD_LEN => f[c / CONTENT_PER_FE][1 + c % CONTENT_PER_FE])
  }

  lemma GatherChunks(bytes: seq<byte>, f: seq<Fe>)
    requires |bytes| == RECORD_LEN && |f| == FE_PER_RECORD && forall j :: 0 <= j < FE_PER_RECORD ==>
      f[j] == Chunk(bytes, j)
    ensures Gather(f) == bytes
  {
    forall c | 0 <= c < RECORD_LEN ensures Gather(f)[c] == bytes[c] {
      assert f[c / CONTENT_PER_FE] == Chunk(bytes, c / CONTENT_PER_FE);
    }
  }

  function PaddedRecord(records: seq<Record>, i: nat): Record {
    if i < |records| then records[i] else ZERO_RECORD
  }

  function FeAt(records: seq<Record>, k: nat): Fe {
    Chunk(EncodeRecord(PaddedRecord(records, k / FE_PER_RECORD)), k % FE_PER_RECORD)
  }

  function EncodedBlob(records: seq<Record>): (fes: seq<Fe>)
    ensures |fes| == BLOB_FES
  {
    seq(BLOB_FES, k requires k >= 0 => FeAt(records, k))
  }

  method EncodeChunks(bytes: seq<byte>) returns (fes: seq<Fe>)
    requires |bytes| == RECORD_LEN
    ensures |fes| == FE_PER_RECORD && forall j :: 0 <= j < FE_PER_RECORD ==> fes[j] == Chunk(bytes, j)
  {
    fes := [];
    for j := 0 to FE_PER_RECORD
      invariant |fes| == j && forall k :: 0 <= k < j ==> fes[k] == Chunk(bytes, k)
    {
      var start := j * CONTENT_PER_FE;
      var end := if (j + 1) * CONTENT_PER_FE <= RECORD_LEN then (j + 1) * CONTENT_PER_FE else RECORD_LEN;
      var fe: Fe := [0] + bytes[start..end] + Zeros(31 - (end - start));
      assert fe == Chunk(bytes, j);
      fes := fes + [fe];
    }
  }

  /** The first field elements of the blob. */
  ghost predicate BlobStart(records: seq<Record>, out: seq<Fe>) {
    forall k :: 0 <= k < |out| ==> out[k] == FeAt(records, k)
  }

  lemma BlobStartNext(records: seq<Record>, i: nat, out: seq<Fe>, fes: seq<Fe>)
    requires |out| == FE_PER_RECORD * i && BlobStart(records, out) && |fes| == FE_PER_RECORD
    requires forall j :: 0 <= j < FE_PER_RECORD ==> fes[j] == Chunk(EncodeRecord(PaddedRecord(records, i)), j)
    ensures BlobStart(records, out + fes)
  {
    forall k | 0 <= k < |out + fes| ensures (out + fes)[k] == FeAt(records, k) {
      if k >= |out| {
        assert k / FE_PER_RECORD == i && k % FE_PER_RECORD == k - FE_PER_RECORD * i;
      }
    }
  }

  method EncodeBlob(records: seq<Record>) returns (r: Result<seq<Fe>, BlobError>)
    ensures r == if |records| > RECORDS_PER_BLOB then Err(Capacity) else Ok(EncodedBlob(records))
  {
    if |records| > RECORDS_PER_BLOB {
      return Err(Capacity);
    }
    var out: seq<Fe> := [];
    ZeroRecordBytes();
    for i := 0 to RECORDS_PER_BLOB
      invariant |out| == FE_PER_RECORD * i
      invariant BlobStart(records, out)
    {
      var bytes := if i < |records| then EncodeRecord(records[i]) else Zeros(RECORD_LEN);
      assert bytes == EncodeRecord(PaddedRecord(records, i));
      var fes := EncodeChunks(bytes);
      BlobStartNext(records, i, out, fes);
      out := out + fes;
    }
    assert out == EncodedBlob(records);
    return Ok(out);
  }

  function RecordAt(fes: seq<Fe>, i: nat): Record
    requires FE_PER_RECORD * i + 4 <= |fes|
  {
    DecodeRecord(Gather(fes[FE_PER_RECORD * i..FE_PER_RECORD * i + 4]))
  }

  /** Every record position of an encoded blob reads back as the record, or as the zero record. */
  lemma BlobHoldsRecords(records: seq<Record>, i: nat)
    requires i < RECORDS_PER_BLOB
    ensures RecordAt(EncodedBlob(records), i) == PaddedRecord(records, i)
  {
    var r, fes := PaddedRecord(records, i), EncodedBlob(records);
    var f := fes[FE_PER_RECORD * i..FE_PER_RECORD * i + 4];
    forall j | 0 <= j < FE_PER_RECORD ensures f[j] == Chunk(EncodeRecord(r), j) {
      var k := FE_PER_RECORD * i + j;
      assert f[j] == fes[k] == FeAt(records, k) && k / FE_PER_RECORD == i && k % FE_PER_RECORD == j;
    }
    GatherChunks(EncodeRecord(r), f);
    RecordRoundTrip(r);
  }

  /** Two record lists with the same blob agree, up to trailing zero records. */
  lemma SameBlobSameRecords(a: seq<Record>, b: seq<Record>)
    requires |a| <= |b| <= RECORDS_PER_BLOB && EncodedBlob(a) == EncodedBlob(b)
    ensures b[..|a|] == a && forall i :: |a| <= i < |b| ==> b[i] == ZERO_RECORD
  {
    forall i | 0 <= i < |b| ensures b[i] == PaddedRecord(a, i) {
      BlobHoldsRecords(a, i);
      BlobHoldsRecords(b, i);
    }
  }

  // ----- decoding a whole blob -----

  function ZeroFrom(records: seq<Record>, i: nat): (r: nat)
    requires i <= |records|
    ensures i <= r <= |records| && (r < |records| ==> records[r] == ZERO_RECORD)
    ensures forall k :: i <= k < r ==> records[k] != ZERO_RECORD
    decreases |records| - i
  {
    if i == |records| || records[i] == ZERO_RECORD then i else ZeroFrom(records, i + 1)
  }

  lemma {:induction false} AllZero(s: seq<byte>)
    ensures BeValue(s) == 0 <==> forall i :: 0 <= i < |s| ==> s[i] == 0
  {
    if |s| != 0 {
      AllZero(s[..|s| - 1]);
      assert s == s[..|s| - 1] + [s[|s| - 1]];
    }
  }

  lemma ZeroBytesIffZeroRecord(s: seq<byte>)
    requires |s| == RECORD_LEN
    ensures (forall i :: 0 <= i < 66 ==> s[i] == 0) <==> DecodeRecord(s) == ZERO_RECORD
  {
    AllZero(s[0..32]);
    AllZero(s[32..64]);
    AllZero(s[64..66]);
    if DecodeRecord(s) == ZERO_RECORD {
      forall i | 0 <= i < 66 ensures s[i] == 0 {
        assert s[i] == if i < 32 then s[0..32][i] else if i < 64 then s[32..64][i - 32] else s[64..66][i - 64];
      }
    }
  }

  /** Records from position `i` up to the first that reads as zero. */
  function DecodedFrom(fes: seq<Fe>, i: nat): seq<Record>
    requires |fes| == BLOB_FES && i <= RECORDS_PER_BLOB
    decreases RECORDS_PER_BLOB - i, fes
  {
    if i == RECORDS_PER_BLOB || RecordAt(fes, i) == ZERO_RECORD then []
      else [RecordAt(fes, i)] + DecodedFrom(fes, i + 1)
  }

  /** What the bytes of record `i` say about the rest of the blob. */
  lemma DecodeStep(fes: seq<Fe>, i: nat, bytes: seq<byte>)
    requires |fes| == BLOB_FES && i < RECORDS_PER_BLOB
    requires bytes == Gather(fes[FE_PER_RECORD * i..FE_PER_RECORD * i + 4])
    ensures (forall k :: 0 <= k < 66 ==> bytes[k] == 0) ==> DecodedFrom(fes, i) == []
    ensures !(forall k :: 0 <= k < 66 ==> bytes[k] == 0) ==>
      DecodedFrom(fes, i) == [DecodeRecord(bytes)] + DecodedFrom(fes, i + 1)
  {
    ZeroBytesIffZeroRecord(bytes);
  }

  method DecodeBlob(fes: seq<Fe>) returns (r: Result<seq<Record>, BlobError>)
    ensures r == if |fes| != BLOB_FES then Err(BlobError.Malformed) else Ok(DecodedFrom(fes, 0))
  {
    if |fes| != BLOB_FES {
      return Err(BlobError.Malformed);
    }
    var out: seq<Record> := [];
    var i := 0;
    ghost var all := DecodedFrom(fes, 0);
    while i < RECORDS_PER_BLOB
      invariant i <= RECORDS_PER_BLOB
      invariant out + DecodedFrom(fes, i) == all
    {
      var bytes := Gather(fes[FE_PER_RECORD * i..FE_PER_RECORD * i + 4]);
      DecodeStep(fes, i, bytes);
      if forall k :: 0 <= k < 66 ==> bytes[k] == 0 {
        break;
      }
      var r := DecodeRecord(bytes);
      assert out + ([r] + DecodedFrom(fes, i + 1)) == (out + [r]) + DecodedFrom(fes, i + 1);
      out, i := out + [r], i + 1;
    }
    assert out + [] == out;
    return Ok(out);
  }

  lemma {:induction false} DecodeStopsAtZero(records: seq<Record>, i: nat)
    requires i <= |records| <= RECORDS_PER_BLOB
    ensures DecodedFrom(EncodedBlob(records), i) == records[i..ZeroFrom(records, i)]
    decreases |records| - i
  {
    if i < RECORDS_PER_BLOB {
      BlobHoldsRecords(records, i);
    }
    if i < |records| && records[i] != ZERO_RECORD {
      DecodeStopsAtZero(records, i + 1);
      assert records[i..ZeroFrom(records, i)] == [records[i]] + records[i + 1..ZeroFrom(records, i)];
    }
  }

  lemma {:induction false} CutIsWhole(records: seq<Record>)
    ensures records[..ZeroFrom(records, 0)] == records <==> ZERO_RECORD !in records
  {
    var z := ZeroFrom(records, 0);
    assert |records[..z]| == z && (z == |records| ==> records[..z] == records);
    if ZERO_RECORD in records {
      var k :| 0 <= k < |records| && records[k] == ZERO_RECORD;
      assert z <= k;
    }
  }

  /** Decoding an encoded list cuts it at its first zero record; so it reads back whole exactly when it
      has none. */
  lemma {:induction false} BlobRoundTrip(records: seq<Record>)
    requires |records| <= RECORDS_PER_BLOB
    ensures DecodedFrom(EncodedBlob(records), 0) == records[..ZeroFrom(records, 0)]
    ensures DecodedFrom(EncodedBlob(records), 0) == records <==> ZERO_RECORD !in records
  {
    DecodeStopsAtZero(records, 0);
    CutIsWhole(records);
    assert records[0..ZeroFrom(records, 0)] == records[..ZeroFrom(records, 0)];
  }

  // ----- openings -----

  datatype Opening = Opening(index: nat, value: Fe, proof: nat)

  function Count(openings: seq<Opening>, index: nat): nat {
    if |openings| == 0 then 0
    else (if openings[|openings| - 1].index == index then 1 else 0) + Count(openings[..|openings| - 1], index)
  }

  /** The value claimed for an index by the last opening of it. */
  function Claimed(openings: seq<Opening>, index: nat): Fe {
    if |openings| == 0 then Zeros(32)
    else if openings[|openings| - 1].index == index then openings[|openings| - 1].value
    else Claimed(openings[..|openings| - 1], index)
  }

  predicate OpenedOnce(openings: seq<Opening>, base: nat) {
    && Count(openings, base) == 1 && Count(openings, base + 1) == 1
    && Count(openings, base + 2) == 1 && Count(openings, base + 3) == 1
  }

  /** The record at `position` that a list of openings amounts to: each of its four field elements has to
      be opened exactly once. */
  function Evidence(openings: seq<Opening>, position: nat): Option<Record> {
    var base := FE_PER_RECORD * position;
    if base + 3 >= BLOB_FES then None
    else if OpenedOnce(openings, base) then
      Some(DecodeRecord(Gather([Claimed(openings, base), Claimed(openings, base + 1), Claimed(openings, base + 2),
                                Claimed(openings, base + 3)])))
    else None
  }

  ghost predicate SlotHolds(openings: seq<Opening>, index: nat, slot: Option<Fe>) {
    match slot
    case None => Count(openings, index) == 0
    case Some(v) => Count(openings, index) == 1 && Claimed(openings, index) == v
  }

  method DeriveEvidence(openings: seq<Opening>, position: nat) returns (r: Option<Record>)
    ensures r == Evidence(openings, position)
  {
    var base := FE_PER_RECORD * position;
    if base + 3 >= BLOB_FES {
      return None;
    }
    var slots: seq<Option<Fe>> := [None, None, None, None];
    for i := 0 to |openings|
      invariant |slots| == 4
      invariant forall off :: 0 <= off < 4 ==> SlotHolds(openings[..i], base + off, slots[off])
    {
      var o := openings[i];
      assert openings[..i + 1][..i] == openings[..i];
      if base <= o.index < base + 4 {
        var off := o.index - base;
        if slots[off].Some? {
          assert SlotHolds(openings[..i], base + off, slots[off]);
          CountGrows(openings, i + 1, base + off);
          return None;
        }
        slots := slots[off := Some(o.value)];
      }
    }
    assert openings[..|openings|] == openings;
    assert SlotHolds(openings, base + 0, slots[0]) && SlotHolds(openings, base + 1, slots[1]);
    assert SlotHolds(openings, base + 2, slots[2]) && SlotHolds(openings, base + 3, slots[3]);
    if slots[0].None? || slots[1].None? || slots[2].None? || slots[3].None? {
      return None;
    }
    return Some(DecodeRecord(Gather([slots[0].value, slots[1].value, slots[2].value, slots[3].value])));
  }

  lemma {:induction false} CountGrows(openings: seq<Opening>, i: nat, index: nat)
    requires i <= |openings|
    ensures Count(openings[..i], index) <= Count(openings, index)
    decreases |openings| - i
  {
    if i == |openings| {
      assert openings[..i] == openings;
    } else {
      assert openings[..i + 1][..i] == openings[..i];
      CountGrows(openings, i + 1, index);
    }
  }

  ghost predicate Opens(fes: seq<Fe>, o: Opening) {
    o.index < |fes| && fes[o.index] == o.value
  }

  lemma {:induction false} ClaimedIsOpened(fes: seq<Fe>, openings: seq<Opening>, index: nat)
    requires Count(openings, index) > 0 && forall i :: 0 <= i < |openings| ==> Opens(fes, openings[i])
    ensures index < |fes| && Claimed(openings, index) == fes[index]
  {
    var n := |openings| - 1;
    assert Opens(fes, openings[n]);
    if openings[n].index != index {
      ClaimedIsOpened(fes, openings[..n], index);
    }
  }

  lemma FourElements(fes: seq<Fe>, base: nat)
    requires base + 4 <= |fes|
    ensures [fes[base], fes[base + 1], fes[base + 2], fes[base + 3]] == fes[base..base + 4]
  {
  }

  /** With faithful openings of a published blob, evidence is the record at the position, or the zero
      record past the end of the batch. */
  lemma EvidenceIsRecord(records: seq<Record>, openings: seq<Opening>, position: nat)
    requires forall i :: 0 <= i < |openings| ==> Opens(EncodedBlob(records), openings[i])
    requires Evidence(openings, position).Some?
    ensures position < RECORDS_PER_BLOB && Evidence(openings, position) == Some(PaddedRecord(records, position))
  {
    var base, fes := FE_PER_RECORD * position, EncodedBlob(records);
    ClaimedIsOpened(fes, openings, base);
    ClaimedIsOpened(fes, openings, base + 1);
    ClaimedIsOpened(fes, openings, base + 2);
    ClaimedIsOpened(fes, openings, base + 3);
    FourElements(fes, base);
    BlobHoldsRecords(records, position);
  }

  // ----- the carrier -----

  datatype BlobEntry = BlobEntry(fes: seq<Fe>, records: seq<Record>)

  /** SHA-256 of the blob with the high byte cleared, and the tag that serves as an opening proof. */
  datatype BlobHash = BlobHash(sha: seq<Fe> -> nat, tag: (nat, nat, Fe) -> nat)

  function VersionedHash(h: BlobHash, fes: seq<Fe>): (vh: Bytes32)
    ensures vh < TWO_248
  {
    h.sha(fes) % TWO_248
  }

  type Blobs = map<Bytes32, BlobEntry>

  /** Every entry is the encoding of its records and sits under its own versioned hash. */
  ghost predicate Faithful(h: BlobHash, blobs: Blobs) {
    forall vh :: vh in blobs ==>
      var e := blobs[vh];
      |e.records| <= RECORDS_PER_BLOB && e.fes == EncodedBlob(e.records) && vh == VersionedHash(h, e.fes)
  }

  /** The blob of the records is found under its versioned hash. */
  ghost predicate Stored(h: BlobHash, blobs: Blobs, records: seq<Record>) {
    var vh := VersionedHash(h, EncodedBlob(records));
    vh in blobs && blobs[vh].records == records
  }

  function VerifyOpening(h: BlobHash, blobs: Blobs, vh: Bytes32, o: Opening): Option<BlobError> {
    if vh !in blobs then Some(NotFound)
    else if o.index >= |blobs[vh].fes| || blobs[vh].fes[o.index] != o.value then Some(InvalidOpening)
    else if o.proof != h.tag(vh, o.index, o.value) then Some(InvalidOpening)
    else None
  }

  class InMemoryBlobCarrier {
    const h: BlobHash
    var blobs: Blobs

    constructor (h: BlobHash)
      ensures this.h == h && blobs == map[] && Faithful(h, blobs)
    {
      this.h := h;
      blobs := map[];
    }

    method Publish(records: seq<Record>) returns (r: Result<Bytes32, BlobError>)
      requires Faithful(h, blobs)
      modifies this
      ensures Faithful(h, blobs)
      ensures |records| > RECORDS_PER_BLOB ==> r == Err(Capacity) && blobs == old(blobs)
      ensures |records| <= RECORDS_PER_BLOB ==>
        && r == Ok(VersionedHash(h, EncodedBlob(records)))
        && blobs == old(blobs)[r.value := BlobEntry(EncodedBlob(records), records)]
    {
      var fes := EncodeBlob(records);
      if fes.Err? {
        return Err(fes.error);
      }
      var vh := VersionedHash(h, fes.value);
      blobs := blobs[vh := BlobEntry(fes.value, records)];
      return Ok(vh);
    }

    /** What the carrier opens it verifies, and it is the published value. */
    method Open(vh: Bytes32, index: nat) returns (r: Result<Opening, BlobError>)
      ensures r.Ok? <==> vh in blobs && index < |blobs[vh].fes|
      ensures r.Ok? ==>
        r.value.index == index && Opens(blobs[vh].fes, r.value) && VerifyOpening(h, blobs, vh, r.value).None?
    {
      if vh !in blobs {
        return Err(NotFound);
      }
      if index >= |blobs[vh].fes| {
        return Err(BlobError.Malformed);
      }
      var value := blobs[vh].fes[index];
      return Ok(Opening(index, value, h.tag(vh, index, value)));
    }
  }
}
