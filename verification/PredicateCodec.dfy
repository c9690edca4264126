/** The wire form of a predicate and its canonical scalars. */
module PredicateCodec {
  import opened Field
  import opened Wrappers
  import opened Predicate

  type Buffer = seq<byte>

  // ----- single bytes -----

  function TypeByte(t: TypeTag): byte {
    match t case Int64 => 0x01 case Hash => 0x02 case Bool => 0x03
  }

  function TypeOf(b: byte): (r: Option<TypeTag>)
    ensures forall t :: r == Some(t) <==> TypeByte(t) == b
  {
    if b == 0x01 then Some(Int64) else if b == 0x02 then Some(Hash) else if b == 0x03 then Some(Bool) else None
  }

  function ComparatorByte(c: Comparator): byte {
    match c case Eq => 0x10 case Le => 0x11 case Ge => 0x12
  }

  function ComparatorOf(b: byte): (r: Option<Comparator>)
    ensures forall c :: r == Some(c) <==> ComparatorByte(c) == b
  {
    if b == 0x10 then Some(Eq) else if b == 0x11 then Some(Le) else if b == 0x12 then Some(Ge) else None
  }

  function CodeByte(c: OpCode): byte {
    match c case PushTuple => 0x20 case And => 0x21 case Or => 0x22 case Not => 0x23 case Nop => 0xff
  }

  function CodeOf(b: byte): (r: Option<OpCode>)
    ensures forall c :: r == Some(c) <==> CodeByte(c) == b
  {
    if b == 0x20 then Some(PushTuple) else if b == 0x21 then Some(And) else if b == 0x22 then Some(Or)
    else if b == 0x23 then Some(Not) else if b == 0xff then Some(Nop) else None
  }

  // ----- tuples and ops -----

  function TupleBytes(t: Tuple): (s: Buffer)
    ensures |s| == 35
  {
    [t.claimIndex as byte] + BeBytes(t.operand, 32) + [TypeByte(t.typeTag), ComparatorByte(t.comparator)]
  }

  function TuplesBytes(ts: seq<Tuple>): (s: Buffer)
    ensures |s| == 35 * |ts|
  {
    if |ts| == 0 then [] else TuplesBytes(ts[..|ts| - 1]) + TupleBytes(ts[|ts| - 1])
  }

  function OpsBytes(ops: seq<Op>): (s: Buffer)
    ensures |s| == 2 * |ops|
  {
    if |ops| == 0 then []
    else OpsBytes(ops[..|ops| - 1]) + [CodeByte(ops[|ops| - 1].code), ops[|ops| - 1].operand as byte]
  }

  /** Reads one 35-byte tuple. */
  function ReadTuple(s: Buffer): Result<Tuple, PredicateError>
    requires |s| == 35
  {
    BeValueBound(s[1..33]);
    Pow256Values();
    match TypeOf(s[33])
    case None => Err(BadTypeTag)
    case Some(t) =>
      match ComparatorOf(s[34])
      case None => Err(BadComparator)
      case Some(c) => Ok(Tuple(s[0] as nat, BeValue(s[1..33]), t, c))
  }

  lemma ReadTupleInverse(s: Buffer, t: Tuple)
    requires |s| == 35
    ensures ReadTuple(s) == Ok(t) <==> s == TupleBytes(t)
  {
    Pow256Values();
    BeValueOfBytes(t.operand, 32);
    BeBytesOfValue(s[1..33]);
    assert s == [s[0]] + s[1..33] + [s[33], s[34]];
    if s == TupleBytes(t) {
      assert s[1..33] == BeBytes(t.operand, 32);
    }
  }

  /** Reads `n` tuples from the start of a buffer. */
  function ReadTuples(s: Buffer, n: nat): Result<seq<Tuple>, PredicateError>
    requires 35 * n <= |s|
    decreases n
  {
    if n == 0 then Ok([])
    else match ReadTuples(s, n - 1)
      case Err(e) => Err(e)
      case Ok(ts) => match ReadTuple(s[35 * (n - 1)..35 * n])
        case Err(e) => Err(e)
        case Ok(t) => Ok(ts + [t])
  }

  /** Reads `n` two-byte ops from the start of a buffer. */
  function ReadOps(s: Buffer, n: nat): Result<seq<Op>, PredicateError>
    requires 2 * n <= |s|
    decreases n
  {
    if n == 0 then Ok([])
    else match ReadOps(s, n - 1)
      case Err(e) => Err(e)
      case Ok(ops) => match CodeOf(s[2 * n - 2])
        case None => Err(BadOpcode)
        case Some(c) => Ok(ops + [Op(c, s[2 * n - 1] as nat)])
  }

  lemma {:induction false} ReadTuplesInverse(s: Buffer, n: nat, ts: seq<Tuple>)
    requires 35 * n <= |s|
    ensures ReadTuples(s, n) == Ok(ts) <==> |ts| == n && s[..35 * n] == TuplesBytes(ts)
    decreases n
  {
    if n == 0 {
      assert s[..0] == [];
    } else if |ts| == n {
      var m := n - 1;
      ReadTuplesInverse(s, m, ts[..m]);
      ReadTupleInverse(s[35 * m..35 * n], ts[m]);
      assert s[..35 * n] == s[..35 * m] + s[35 * m..35 * n] && ts == ts[..m] + [ts[m]];
      SplitConcat(s[..35 * m], TuplesBytes(ts[..m]), s[35 * m..35 * n], TupleBytes(ts[m]));
      if ReadTuples(s, n) == Ok(ts) {
        SplitConcat(ReadTuples(s, m).value, ts[..m], [ts[m]], [ts[m]]);
      }
    } else {
      ReadTuplesCount(s, n);
    }
  }

  lemma {:induction false} ReadTuplesCount(s: Buffer, n: nat)
    requires 35 * n <= |s|
    ensures ReadTuples(s, n).Ok? ==> |ReadTuples(s, n).value| == n
    decreases n
  {
    if n != 0 {
      ReadTuplesCount(s, n - 1);
    }
  }

  lemma SplitConcat<T>(a: seq<T>, b: seq<T>, c: seq<T>, d: seq<T>)
    requires |c| == |d|
    ensures a + c == b + d <==> a == b && c == d
  {
    if a + c == b + d {
      assert |a| == |b| && a == (a + c)[..|a|] && b == (b + d)[..|a|] && c == (a + c)[|a|..] && d == (b + d)[|a|..];
    }
  }

  lemma {:induction false} ReadOpsInverse(s: Buffer, n: nat, ops: seq<Op>)
    requires 2 * n <= |s|
    ensures ReadOps(s, n) == Ok(ops) <==> |ops| == n && s[..2 * n] == OpsBytes(ops)
    decreases n
  {
    if n == 0 {
      assert s[..0] == [];
    } else if |ops| == n {
      var m := n - 1;
      ReadOpsInverse(s, m, ops[..m]);
      assert s[..2 * n] == s[..2 * m] + [s[2 * m], s[2 * m + 1]] && ops == ops[..m] + [ops[m]];
      SplitConcat(s[..2 * m], OpsBytes(ops[..m]), [s[2 * m], s[2 * m + 1]],
                  [CodeByte(ops[m].code), ops[m].operand as byte]);
      assert CodeOf(s[2 * m]) == Some(ops[m].code) <==> CodeByte(ops[m].code) == s[2 * m];
      if ReadOps(s, n) == Ok(ops) {
        SplitConcat(ReadOps(s, m).value, ops[..m], [ops[m]], [ops[m]]);
      }
    } else {
      ReadOpsCount(s, n);
    }
  }

  lemma {:induction false} ReadOpsCount(s: Buffer, n: nat)
    requires 2 * n <= |s|
    ensures ReadOps(s, n).Ok? ==> |ReadOps(s, n).value| == n
    decreases n
  {
    if n != 0 {
      ReadOpsCount(s, n - 1);
    }
  }

  // ----- predicates -----

  function SerializedLen(p: PredicateDef): nat {
    1 + |p.tuples| * 35 + 1 + |p.ops| * 2
  }

  function PredicateBytes(p: PredicateDef): Buffer
    requires Validate(p).None?
  {
    ValidParts(p);
    [|p.tuples| as byte] + TuplesBytes(p.tuples) + [|p.ops| as byte] + OpsBytes(p.ops)
  }

  /** Specification of the encoder. */
  function Encoded(p: PredicateDef): Result<Buffer, PredicateError> {
    match Validate(p)
    case Some(e) => Err(e)
    case None => if SerializedLen(p) > PREDICATE_BYTES_MAX then Err(TooLarge) else Ok(PredicateBytes(p))
  }

  /** The size check can never fire: the encoder refuses exactly what validation refuses. */
  lemma EncodeNeverTooLarge(p: PredicateDef)
    ensures Encoded(p) != Err(TooLarge)
    ensures Encoded(p).Ok? <==> Validate(p).None?
  {
    ValidParts(p);
    FirstErrorKinds(Errors(p));
  }

  lemma {:induction false} FirstErrorKinds(errors: seq<Option<PredicateError>>)
    requires forall i :: 0 <= i < |errors| ==> errors[i] != Some(TooLarge)
    ensures FirstError(errors) != Some(TooLarge)
  {
    if |errors| != 0 && errors[0].None? {
      FirstErrorKinds(errors[1..]);
    }
  }

  method EncodeTuples(head: Buffer, ts: seq<Tuple>) returns (out: Buffer)
    ensures out == head + TuplesBytes(ts)
  {
    out := head;
    for i := 0 to |ts|
      invariant out == head + TuplesBytes(ts[..i])
    {
      assert ts[..i + 1][..i] == ts[..i];
      var t := ts[i];
      out := out + ([t.claimIndex as byte] + BeBytes(t.operand, 32)
                    + [TypeByte(t.typeTag), ComparatorByte(t.comparator)]);
    }
    assert ts[..|ts|] == ts;
  }

  method EncodeOps(head: Buffer, ops: seq<Op>) returns (out: Buffer)
    ensures out == head + OpsBytes(ops)
  {
    out := head;
    for i := 0 to |ops|
      invariant out == head + OpsBytes(ops[..i])
    {
      assert ops[..i + 1][..i] == ops[..i];
      out := out + [CodeByte(ops[i].code), ops[i].operand as byte];
    }
    assert ops[..|ops|] == ops;
  }

  method Encode(p: PredicateDef) returns (r: Result<Buffer, PredicateError>)
    ensures r == Encoded(p)
  {
    match Validate(p) {
      case Some(e) => return Err(e);
      case None =>
    }
    if SerializedLen(p) > PREDICATE_BYTES_MAX {
      return Err(TooLarge);
    }
    var out := EncodeTuples([|p.tuples| as byte], p.tuples);
    out := EncodeOps(out + [|p.ops| as byte], p.ops);
    return Ok(out);
  }

  /** Specification of the decoder. */
  function Decoded(s: Buffer): Result<PredicateDef, PredicateError> {
    if |s| > PREDICATE_BYTES_MAX then Err(TooLarge)
    else if |s| < 2 then Err(Malformed)
    else
      var n := s[0] as nat;
      if n > PREDICATE_TUPLE_MAX then Err(TupleCountOutOfRange)
      else if |s| < 1 + n * 35 + 1 then Err(Malformed)
      else match ReadTuples(s[1..], n)
        case Err(e) => Err(e)
        case Ok(tuples) =>
          var at := 1 + n * 35;
          var m := s[at] as nat;
          if |s| < at + 1 + m * 2 then Err(Malformed)
          else match ReadOps(s[at + 1..], m)
            case Err(e) => Err(e)
            case Ok(ops) =>
              match Validate(PredicateDef(tuples, ops))
              case Some(e) => Err(e)
              case None => Ok(PredicateDef(tuples, ops))
  }

  method DecodeTuples(s: Buffer, n: nat) returns (r: Result<seq<Tuple>, PredicateError>)
    requires 35 * n <= |s|
    ensures r == ReadTuples(s, n)
  {
    var tuples := [];
    for i := 0 to n
      invariant ReadTuples(s, i) == Ok(tuples)
    {
      match ReadTuple(s[35 * i..35 * (i + 1)]) {
        case Err(e) =>
          ReadTuplesStops(s, i + 1, n);
          return Err(e);
        case Ok(t) => tuples := tuples + [t];
      }
    }
    return Ok(tuples);
  }

  method DecodeOps(s: Buffer, m: nat) returns (r: Result<seq<Op>, PredicateError>)
    requires 2 * m <= |s|
    ensures r == ReadOps(s, m)
  {
    var ops := [];
    for i := 0 to m
      invariant ReadOps(s, i) == Ok(ops)
    {
      match CodeOf(s[2 * i]) {
        case None =>
          ReadOpsStops(s, i + 1, m);
          return Err(BadOpcode);
        case Some(c) => ops := ops + [Op(c, s[2 * i + 1] as nat)];
      }
    }
    return Ok(ops);
  }

  method Decode(s: Buffer) returns (r: Result<PredicateDef, PredicateError>)
    ensures r == Decoded(s)
  {
    if |s| > PREDICATE_BYTES_MAX {
      return Err(TooLarge);
    }
    if |s| < 2 {
      return Err(Malformed);
    }
    var n := s[0] as nat;
    if n > PREDICATE_TUPLE_MAX {
      return Err(TupleCountOutOfRange);
    }
    if |s| < 1 + n * 35 + 1 {
      return Err(Malformed);
    }
    var at := 1 + n * 35;
    var tuples := DecodeTuples(s[1..], n);
    if tuples.Err? {
      return Err(tuples.error);
    }
    var m := s[at] as nat;
    if |s| < at + 1 + m * 2 {
      return Err(Malformed);
    }
    var ops := DecodeOps(s[at + 1..], m);
    if ops.Err? {
      return Err(ops.error);
    }
    match Validate(PredicateDef(tuples.value, ops.value)) {
      case Some(e) => return Err(e);
      case None => return Ok(PredicateDef(tuples.value, ops.value));
    }
  }

  lemma {:induction false} ReadTuplesStops(s: Buffer, k: nat, n: nat)
    requires k <= n && 35 * n <= |s| && ReadTuples(s, k).Err?
    ensures ReadTuples(s, n) == ReadTuples(s, k)
    decreases n
  {
    if k < n {
      ReadTuplesStops(s, k, n - 1);
    }
  }

  lemma {:induction false} ReadOpsStops(s: Buffer, k: nat, n: nat)
    requires k <= n && 2 * n <= |s| && ReadOps(s, k).Err?
    ensures ReadOps(s, n) == ReadOps(s, k)
    decreases n
  {
    if k < n {
      ReadOpsStops(s, k, n - 1);
    }
  }

  lemma Layout(s: Buffer, x: byte, t: Buffer, y: byte, o: Buffer)
    ensures [x] + t + [y] + o <= s <==>
            && |s| >= 2 + |t| + |o| && s[0] == x && s[1..1 + |t|] == t
            && s[1 + |t|] == y && s[2 + |t|..2 + |t| + |o|] == o
  {
    var e, n := [x] + t + [y] + o, 2 + |t| + |o|;
    if |s| >= n {
      assert s[..n] == [s[0]] + s[1..1 + |t|] + [s[1 + |t|]] + s[2 + |t|..n];
    }
    if e <= s {
      assert s[1..1 + |t|] == e[1..1 + |t|] == t;
      assert s[1 + |t|] == e[1 + |t|];
      assert s[2 + |t|..n] == e[2 + |t|..] == o;
    }
  }

  /** The decoder in terms of what the two counted reads return. */
  lemma DecodedByParts(s: Buffer, p: PredicateDef)
    requires 2 + 35 * |p.tuples| + 2 * |p.ops| <= |s| <= PREDICATE_BYTES_MAX
    requires s[0] as nat == |p.tuples| <= PREDICATE_TUPLE_MAX && s[1 + 35 * |p.tuples|] as nat == |p.ops|
    ensures Decoded(s) == Ok(p) <==>
            && ReadTuples(s[1..], |p.tuples|) == Ok(p.tuples)
            && ReadOps(s[2 + 35 * |p.tuples|..], |p.ops|) == Ok(p.ops)
            && Validate(p).None?
  {
  }

  /** Where a buffer that starts with an encoding holds the tuples and the operators. */
  lemma EncodingSlices(p: PredicateDef, s: Buffer)
    requires Validate(p).None? && PredicateBytes(p) <= s
    ensures |p.tuples| <= PREDICATE_TUPLE_MAX && 2 + 35 * |p.tuples| + 2 * |p.ops| <= |s|
    ensures s[0] as nat == |p.tuples| && s[1 + 35 * |p.tuples|] as nat == |p.ops|
    ensures s[1..][..35 * |p.tuples|] == TuplesBytes(p.tuples)
    ensures s[2 + 35 * |p.tuples|..][..2 * |p.ops|] == OpsBytes(p.ops)
  {
    ValidParts(p);
    var t, o, n := TuplesBytes(p.tuples), OpsBytes(p.ops), |p.tuples|;
    Layout(s, n as byte, t, |p.ops| as byte, o);
    assert s[1..][..35 * n] == s[1..1 + |t|] && s[2 + 35 * n..][..2 * |p.ops|] == s[2 + |t|..2 + |t| + |o|];
  }

  lemma EncodingDecodes(p: PredicateDef, s: Buffer)
    requires Validate(p).None? && PredicateBytes(p) <= s && |s| <= PREDICATE_BYTES_MAX
    ensures Decoded(s) == Ok(p)
  {
    EncodingSlices(p, s);
    ReadTuplesInverse(s[1..], |p.tuples|, p.tuples);
    ReadOpsInverse(s[2 + 35 * |p.tuples|..], |p.ops|, p.ops);
    DecodedByParts(s, p);
  }

  lemma DecodedCounts(s: Buffer, p: PredicateDef)
    requires Decoded(s) == Ok(p)
    ensures 2 + 35 * |p.tuples| + 2 * |p.ops| <= |s| <= PREDICATE_BYTES_MAX
    ensures s[0] as nat == |p.tuples| && s[1 + 35 * |p.tuples|] as nat == |p.ops|
  {
    ReadTuplesCount(s[1..], s[0] as nat);
    var at := 1 + s[0] as nat * 35;
    ReadOpsCount(s[at + 1..], s[at] as nat);
  }

  /** A buffer that holds these counts, tuples and operators starts with the encoding. */
  lemma SlicesEncode(p: PredicateDef, s: Buffer)
    requires Validate(p).None? && 2 + 35 * |p.tuples| + 2 * |p.ops| <= |s|
    requires s[0] as nat == |p.tuples| && s[1 + 35 * |p.tuples|] as nat == |p.ops|
    requires s[1..][..35 * |p.tuples|] == TuplesBytes(p.tuples)
    requires s[2 + 35 * |p.tuples|..][..2 * |p.ops|] == OpsBytes(p.ops)
    ensures PredicateBytes(p) <= s
  {
    var n, m := |p.tuples|, |p.ops|;
    assert s[1..][..35 * n] == s[1..1 + 35 * n] && s[2 + 35 * n..][..2 * m] == s[2 + 35 * n..2 + 35 * n + 2 * m];
    Layout(s, n as byte, TuplesBytes(p.tuples), m as byte, OpsBytes(p.ops));
  }

  lemma DecodedIsEncoding(p: PredicateDef, s: Buffer)
    requires Decoded(s) == Ok(p)
    ensures Validate(p).None? && PredicateBytes(p) <= s
  {
    DecodedCounts(s, p);
    DecodedByParts(s, p);
    ValidParts(p);
    ReadTuplesInverse(s[1..], |p.tuples|, p.tuples);
    ReadOpsInverse(s[2 + 35 * |p.tuples|..], |p.ops|, p.ops);
    SlicesEncode(p, s);
  }

  /** A buffer decodes to `p` exactly when `p` is valid and the buffer is the encoding of `p`, possibly
      followed by bytes the decoder ignores. */
  lemma DecodesIffEncodingPrefix(p: PredicateDef, s: Buffer)
    ensures Decoded(s) == Ok(p) <==>
            Encoded(p).Ok? && Encoded(p).value <= s && |s| <= PREDICATE_BYTES_MAX
  {
    EncodeNeverTooLarge(p);
    if Validate(p).None? && PredicateBytes(p) <= s && |s| <= PREDICATE_BYTES_MAX {
      EncodingDecodes(p, s);
    }
    if Decoded(s) == Ok(p) {
      DecodedIsEncoding(p, s);
    }
  }

  /** Decoding undoes encoding. */
  lemma RoundTrip(p: PredicateDef)
    requires Validate(p).None?
    ensures Encoded(p).Ok? && Decoded(Encoded(p).value) == Ok(p)
  {
    EncodeNeverTooLarge(p);
    ValidParts(p);
    DecodesIffEncodingPrefix(p, Encoded(p).value);
  }
}
