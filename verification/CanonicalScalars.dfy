/** The 34 field elements that stand for an encoded predicate in the predicate hash. */
module CanonicalScalars {
  import opened Field
  import opened Wrappers
  import opened Predicate

  const SEGMENTS := 34
  const FIRST_CONTENT_BYTES := 29
  const LATER_CONTENT_BYTES := 31

  /** Where the content of a segment starts in the encoding. */
  function Start(seg: nat): nat {
    if seg == 0 then 0 else FIRST_CONTENT_BYTES + LATER_CONTENT_BYTES * (seg - 1)
  }

  /** Byte `pos` of segment `seg`: a zero, the length marker in the first segment, then content. */
  function ByteAt(e: seq<byte>, seg: nat, pos: nat): byte {
    if pos == 0 then 0
    else if seg == 0 && pos == 1 then (|e| / 256 % 256) as byte
    else if seg == 0 && pos == 2 then (|e| % 256) as byte
    else
      var c := if seg == 0 then pos - 3 else Start(seg) + pos - 1;
      if c < |e| then e[c] else 0
  }

  function Segment(e: seq<byte>, seg: nat): (s: seq<byte>)
    ensures |s| == 32
  {
    seq(32, pos requires pos >= 0 => ByteAt(e, seg, pos))
  }

  function WordValue(s: seq<byte>): Bytes32
    requires |s| == 32
  {
    BeValueBound(s);
    Pow256Values();
    BeValue(s)
  }

  function Scalars(e: seq<byte>): (r: seq<Fr>)
    ensures |r| == SEGMENTS
  {
    seq(SEGMENTS, seg requires seg >= 0 => FromBe(WordValue(Segment(e, seg))))
  }

  /** One segment, filled from the cursor. */
  method FillSegment(e: seq<byte>, seg: nat, cursor: nat) returns (buf: seq<byte>, next: nat)
    requires cursor == if Start(seg) <= |e| then Start(seg) else |e|
    ensures buf == Segment(e, seg) && next == if Start(seg + 1) <= |e| then Start(seg + 1) else |e|
  {
    buf := seq(32, i => 0);
    var off, max := 1, LATER_CONTENT_BYTES;
    if seg == 0 {
      buf := buf[1 := (|e| / 256 % 256) as byte][2 := (|e| % 256) as byte];
      off, max := 3, FIRST_CONTENT_BYTES;
    }
    var n := if max <= |e| - cursor then max else |e| - cursor;
    buf := buf[..off] + e[cursor..cursor + n] + buf[off + n..];
    next := cursor + n;
  }

  method ComputeCanonicalScalars(e: seq<byte>) returns (r: Result<seq<Fr>, PredicateError>)
    ensures r == if |e| > PREDICATE_BYTES_MAX then Err(TooLarge) else Ok(Scalars(e))
  {
    if |e| > PREDICATE_BYTES_MAX {
      return Err(TooLarge);
    }
    var scalars: seq<Fr> := [];
    var cursor := 0;
    for seg := 0 to SEGMENTS
      invariant cursor == if Start(seg) <= |e| then Start(seg) else |e|
      invariant |scalars| == seg && forall k :: 0 <= k < seg ==> scalars[k] == Scalars(e)[k]
    {
      var buf, next := FillSegment(e, seg, cursor);
      scalars := scalars + [FromBe(WordValue(buf))];
      cursor := next;
    }
    assert scalars == Scalars(e);
    return Ok(scalars);
  }

  /** No segment is reduced: its leading byte is zero, so its value is below 2^248. */
  lemma SegmentUnreduced(e: seq<byte>, seg: nat)
    ensures FromBe(WordValue(Segment(e, seg))) == BeValue(Segment(e, seg))
  {
    var s := Segment(e, seg);
    BeValueLeadingZero(s);
    BeValueBound(s[1..]);
    Pow256Values();
  }

  lemma SegmentsEqual(a: seq<byte>, b: seq<byte>, seg: nat, pos: nat)
    requires Scalars(a) == Scalars(b) && seg < SEGMENTS && pos < 32
    ensures ByteAt(a, seg, pos) == ByteAt(b, seg, pos)
  {
    assert Scalars(a)[seg] == Scalars(b)[seg];
    SegmentUnreduced(a, seg);
    SegmentUnreduced(b, seg);
    BeBytesOfValue(Segment(a, seg));
    BeBytesOfValue(Segment(b, seg));
    assert Segment(a, seg)[pos] == Segment(b, seg)[pos];
  }

  /** Different buffers within the size cap have different scalars. */
  lemma ScalarsInjective(a: seq<byte>, b: seq<byte>)
    requires |a| <= PREDICATE_BYTES_MAX && |b| <= PREDICATE_BYTES_MAX
    requires Scalars(a) == Scalars(b)
    ensures a == b
  {
    SegmentsEqual(a, b, 0, 1);
    SegmentsEqual(a, b, 0, 2);
    assert |a| == |b|;
    forall c | 0 <= c < |a| ensures a[c] == b[c] {
      if c < FIRST_CONTENT_BYTES {
        SegmentsEqual(a, b, 0, 3 + c);
      } else {
        var k := c - FIRST_CONTENT_BYTES;
        SegmentsEqual(a, b, 1 + k / LATER_CONTENT_BYTES, 1 + k % LATER_CONTENT_BYTES);
      }
    }
  }
}
