/** The byte layouts that other parties read: predicates on the wire, their canonical scalars, records in blobs. */
module Layouts {
  import opened Field
  import opened Wrappers
  import opened Predicate
  import opened PredicateCodec
  import opened CanonicalScalars
  import opened Blob

  // ----- predicates -----

  lemma {:induction false} TupleBytesAt(ts: seq<Tuple>, i: nat)
    requires i < |ts|
    ensures TuplesBytes(ts)[35 * i..35 * i + 35] == TupleBytes(ts[i])
  {
    var n := |ts| - 1;
    if i < n {
      TupleBytesAt(ts[..n], i);
      assert TuplesBytes(ts)[35 * i..35 * i + 35] == TuplesBytes(ts[..n])[35 * i..35 * i + 35];
    }
  }

  lemma {:induction false} OpBytesAt(ops: seq<Op>, i: nat)
    requires i < |ops|
    ensures OpsBytes(ops)[2 * i] == CodeByte(ops[i].code)
    ensures OpsBytes(ops)[2 * i + 1] == ops[i].operand as byte
  {
    var n := |ops| - 1;
    if i < n {
      OpBytesAt(ops[..n], i);
    }
  }

  /** Thirty-five bytes of a tuple: claim index, operand, type code, comparator code. */
  ghost predicate TupleLaidOut(s: seq<byte>, t: Tuple)
    requires |s| == 35
  {
    && s[0] as nat == t.claimIndex && BeValue(s[1..33]) == t.operand
    && (t.typeTag == Int64 <==> s[33] == 0x01) && (t.typeTag == Hash <==> s[33] == 0x02)
    && (t.typeTag == Bool <==> s[33] == 0x03)
    && (t.comparator == Eq <==> s[34] == 0x10) && (t.comparator == Le <==> s[34] == 0x11)
    && (t.comparator == Ge <==> s[34] == 0x12)
  }

  lemma TupleLayout(t: Tuple)
    ensures TupleLaidOut(TupleBytes(t), t)
  {
    Pow256Values();
    BeValueOfBytes(t.operand, 32);
    assert TupleBytes(t)[1..33] == BeBytes(t.operand, 32);
  }

  /** Two bytes of an operator: its code and its operand. */
  ghost predicate OpLaidOut(code: byte, operand: byte, op: Op) {
    && operand as nat == op.operand
    && (op.code == PushTuple <==> code == 0x20) && (op.code == And <==> code == 0x21)
    && (op.code == Or <==> code == 0x22) && (op.code == Not <==> code == 0x23) && (op.code == Nop <==> code == 0xff)
  }

  /** The whole wire form: a count, the tuples, a count, the operators. */
  ghost predicate LaidOut(s: seq<byte>, p: PredicateDef) {
    var n, m := |p.tuples|, |p.ops|;
    && |s| == 2 + 35 * n + 2 * m && s[0] as nat == n && s[1 + 35 * n] as nat == m
    && (forall i {:trigger p.tuples[i]} :: 0 <= i < n ==> TupleLaidOut(s[1 + 35 * i..36 + 35 * i], p.tuples[i]))
    && (forall k {:trigger p.ops[k]} :: 0 <= k < m ==>
      OpLaidOut(s[2 + 35 * n + 2 * k], s[3 + 35 * n + 2 * k], p.ops[k]))
  }

  lemma PredicateLayout(p: PredicateDef)
    requires Validate(p).None?
    ensures Encoded(p).Ok? && LaidOut(Encoded(p).value, p)
  {
    EncodeNeverTooLarge(p);
    ValidParts(p);
    var s, n, m := PredicateBytes(p), |p.tuples|, |p.ops|;
    EncodingSlices(p, s);
    forall i | 0 <= i < n ensures TupleLaidOut(s[1 + 35 * i..36 + 35 * i], p.tuples[i]) {
      TupleBytesAt(p.tuples, i);
      TupleLayout(p.tuples[i]);
      assert s[1 + 35 * i..36 + 35 * i] == s[1..][..35 * n][35 * i..35 * i + 35];
    }
    forall k | 0 <= k < m ensures OpLaidOut(s[2 + 35 * n + 2 * k], s[3 + 35 * n + 2 * k], p.ops[k]) {
      OpBytesAt(p.ops, k);
      assert s[2 + 35 * n..][..2 * m][2 * k] == s[2 + 35 * n + 2 * k];
      assert s[2 + 35 * n..][..2 * m][2 * k + 1] == s[3 + 35 * n + 2 * k];
    }
  }

  // ----- canonical scalars -----

  lemma Scaled(x: nat, p: nat, y: nat, z: nat)
    ensures 256 * (x * p + y) + z == x * (256 * p) + (256 * y + z)
  {
  }

  lemma {:induction false} BeValueConcat(a: seq<byte>, b: seq<byte>)
    ensures BeValue(a + b) == BeValue(a) * Pow256(|b|) + BeValue(b)
    decreases |b|
  {
    if |b| == 0 {
      assert a + b == a;
    } else {
      var front, last := b[..|b| - 1], b[|b| - 1];
      BeValueConcat(a, front);
      assert (a + b)[..|a + b| - 1] == a + front && (a + b)[|a + b| - 1] == last;
      Scaled(BeValue(a), Pow256(|front|), BeValue(front), last as nat);
    }
  }

  /** The `n` bytes from `start`, zero past the end. */
  function Cut(e: seq<byte>, start: nat, n: nat): (s: seq<byte>)
    ensures |s| == n
  {
    seq(n, i requires i >= 0 => if start + i < |e| then e[start + i] else 0)
  }

  /** The scalars as numbers: the first carries the length above 29 bytes of content, every later one the next
      31 bytes of content. */
  lemma ScalarLayout(e: seq<byte>, seg: nat)
    requires |e| <= PREDICATE_BYTES_MAX && seg < SEGMENTS
    ensures Scalars(e)[seg] ==
            if seg == 0 then |e| * Pow256(29) + BeValue(Cut(e, 0, 29)) else BeValue(Cut(e, 29 + 31 * (seg - 1), 31))
  {
    var s := Segment(e, seg);
    SegmentUnreduced(e, seg);
    BeValueLeadingZero(s);
    if seg == 0 {
      var length := [(|e| / 256) as byte, (|e| % 256) as byte];
      assert s[1..] == length + Cut(e, 0, 29);
      BeValueConcat(length, Cut(e, 0, 29));
      assert length[..1] == [(|e| / 256) as byte];
      assert BeValue(length[..1]) == |e| / 256;
      assert BeValue(length) == |e|;
    } else {
      assert s[1..] == Cut(e, 29 + 31 * (seg - 1), 31);
    }
  }

  // ----- blobs -----

  /** Ninety-six bytes of a record: nullifier, identity tag, class, zeros. */
  lemma RecordLayout(r: Record)
    ensures var s := EncodeRecord(r);
            && BeValue(s[0..32]) == r.nullifier && BeValue(s[32..64]) == r.identityTag
            && s[64] as nat * 256 + s[65] as nat == r.classTag
            && forall i :: 66 <= i < RECORD_LEN ==> s[i] == 0
  {
    RecordRoundTrip(r);
    var s := EncodeRecord(r);
    assert s[64..66][..1] == [s[64]];
    assert BeValue([s[64]]) == s[64] as nat;
  }

  /** Where a blob keeps byte `c` of the record at position `i`: in its four field elements, behind their zero
      byte; what is left of them is zero. */
  lemma BlobLayout(records: seq<Record>, i: nat, j: nat, q: nat)
    requires i < RECORDS_PER_BLOB && j < FE_PER_RECORD && q < 32
    ensures EncodedBlob(records)[FE_PER_RECORD * i + j][q] ==
            if q == 0 || 31 * j + q > RECORD_LEN then 0
            else EncodeRecord(PaddedRecord(records, i))[31 * j + q - 1]
  {
    var k := FE_PER_RECORD * i + j;
    assert k / FE_PER_RECORD == i && k % FE_PER_RECORD == j;
    assert EncodedBlob(records)[k] == FeAt(records, k);
  }

  /** An opening is accepted exactly if it is the one the carrier hands out for its index. */
  lemma OpeningVerifiesIff(h: BlobHash, blobs: Blobs, vh: Bytes32, o: Opening)
    ensures VerifyOpening(h, blobs, vh, o).None? <==>
            vh in blobs && Opens(blobs[vh].fes, o) && o.proof == h.tag(vh, o.index, blobs[vh].fes[o.index])
    ensures VerifyOpening(h, blobs, vh, o) == Some(NotFound) <==> vh !in blobs
  {
  }

  /** The openings of a field element. */
  ghost function OpeningsOf(openings: seq<Opening>, index: nat): set<nat> {
    set k: nat | 0 <= k < |openings| && openings[k].index == index
  }

  lemma OpeningsNext(openings: seq<Opening>, index: nat)
    requires |openings| > 0
    ensures var n := |openings| - 1;
            OpeningsOf(openings, index)
            == OpeningsOf(openings[..n], index) + (if openings[n].index == index then {n} else {})
  {
  }

  lemma {:induction false} CountIsSize(openings: seq<Opening>, index: nat)
    ensures Count(openings, index) == |OpeningsOf(openings, index)|
  {
    if |openings| == 0 {
      assert OpeningsOf(openings, index) == {};
    } else {
      OpeningsNext(openings, index);
      CountIsSize(openings[..|openings| - 1], index);
    }
  }

  /** Evidence exists exactly for the positions of a blob whose four field elements have one opening each. */
  lemma {:induction false} EvidenceIff(openings: seq<Opening>, position: nat)
    ensures Evidence(openings, position).Some? <==>
      && position < 1000
      && forall k: nat {:trigger OpeningsOf(openings, k)} ::
           4 * position <= k < 4 * position + 4 ==> |OpeningsOf(openings, k)| == 1
  {
    var base := 4 * position;
    CountIsSize(openings, base);
    CountIsSize(openings, base + 1);
    CountIsSize(openings, base + 2);
    CountIsSize(openings, base + 3);
  }
}
