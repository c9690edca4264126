/** The petition predicate: a postfix boolean machine over attribute comparisons, and the taint
    analysis that must be sound for its evaluator. */
module Predicate {
  import opened Field
  import opened Wrappers

  const PREDICATE_TUPLE_MAX := 20
  const PREDICATE_OP_MAX := 20
  const PREDICATE_BYTES_MAX := 1024

  datatype TypeTag = Int64 | Hash | Bool
  datatype Comparator = Eq | Le | Ge
  datatype OpCode = PushTuple | And | Or | Not | Nop

  type u8 = x: nat | x < 256
  type ClassTag = x: nat | x < TWO_16

  datatype Tuple = Tuple(claimIndex: u8, operand: Bytes32, typeTag: TypeTag, comparator: Comparator)
  datatype Op = Op(code: OpCode, operand: u8)
  datatype PredicateDef = PredicateDef(tuples: seq<Tuple>, ops: seq<Op>)

  datatype PredicateError =
    | TooLarge | TupleCountOutOfRange | OpCountOutOfRange | BadTypeTag | BadComparator | BadOpcode
    | OperandOutOfRange | Malformed | ClaimOutOfRange | StackUnderflow(op: nat) | NonSingletonResult(size: nat)
    | MissingClassBinding | Int64OperandOutOfRange | TypeMismatch

  // ----- structural validation -----

  function OpError(op: Op, tupleCount: nat): Option<PredicateError> {
    if op.code == PushTuple then (if op.operand >= tupleCount then Some(OperandOutOfRange) else None)
    else if op.operand != 0 then Some(Malformed) else None
  }

  function TupleError(t: Tuple): Option<PredicateError> {
    match (t.typeTag, t.comparator)
    case (Int64, _) => if t.operand < TWO_64 then None else Some(Int64OperandOutOfRange)
    case (Hash, Eq) => None
    case (Bool, Eq) => if t.operand <= 1 then None else Some(TypeMismatch)
    case (_, _) => Some(TypeMismatch)
  }

  /** First error reported by a scan. */
  function FirstError(errors: seq<Option<PredicateError>>): Option<PredicateError> {
    if |errors| == 0 then None else if errors[0].Some? then errors[0] else FirstError(errors[1..])
  }

  function Errors(p: PredicateDef): seq<Option<PredicateError>> {
    seq(|p.ops|, i requires 0 <= i < |p.ops| => OpError(p.ops[i], |p.tuples|))
    + seq(|p.tuples|, i requires 0 <= i < |p.tuples| => TupleError(p.tuples[i]))
  }

  function Validate(p: PredicateDef): Option<PredicateError> {
    if !(1 <= |p.tuples| <= PREDICATE_TUPLE_MAX) then Some(TupleCountOutOfRange)
    else if !(1 <= |p.ops| <= PREDICATE_OP_MAX) then Some(OpCountOutOfRange)
    else FirstError(Errors(p))
  }

  lemma {:induction false} FirstErrorNone(errors: seq<Option<PredicateError>>)
    ensures FirstError(errors).None? <==> forall i :: 0 <= i < |errors| ==> errors[i].None?
  {
    if |errors| != 0 && errors[0].None? {
      FirstErrorNone(errors[1..]);
      assert errors == [errors[0]] + errors[1..];
    }
  }

  /** What a valid predicate guarantees about each of its ops and tuples. */
  lemma ValidParts(p: PredicateDef)
    ensures Validate(p).None? <==>
            && 1 <= |p.tuples| <= PREDICATE_TUPLE_MAX && 1 <= |p.ops| <= PREDICATE_OP_MAX
            && (forall i :: 0 <= i < |p.ops| ==> OpError(p.ops[i], |p.tuples|).None?)
            && (forall i :: 0 <= i < |p.tuples| ==> TupleError(p.tuples[i]).None?)
  {
    var e := Errors(p);
    FirstErrorNone(e);
    if FirstError(e).None? {
      assert forall i :: 0 <= i < |p.ops| ==> e[i] == OpError(p.ops[i], |p.tuples|);
      forall i | 0 <= i < |p.tuples| ensures TupleError(p.tuples[i]).None? {
        assert e[|p.ops| + i] == TupleError(p.tuples[i]);
      }
    }
  }

  // ----- evaluation -----

  /** Compares one attribute value. */
  function Compare(t: Tuple, attr: Fr): Result<bool, PredicateError> {
    match (t.typeTag, t.comparator)
    case (_, Eq) => Ok(attr == FromBe(t.operand))
    case (Int64, Le) => Ok(attr % TWO_64 <= t.operand % TWO_64)
    case (Int64, Ge) => Ok(attr % TWO_64 >= t.operand % TWO_64)
    case (_, _) => Err(TypeMismatch)
  }

  /** Compares the claimed attribute; an attribute index out of range is an error. */
  function EvalTuple(t: Tuple, attrs: seq<Fr>): Result<bool, PredicateError> {
    if t.claimIndex >= |attrs| then Err(ClaimOutOfRange) else Compare(t, attrs[t.claimIndex])
  }

  /** One machine step on a stack whose top is the last element. `push` gives the value of a tuple. */
  function Step<T>(op: Op, i: nat, stack: seq<T>, push: Result<T, PredicateError>,
                   conj: (T, T) -> T, disj: (T, T) -> T, neg: T -> T): Result<seq<T>, PredicateError> {
    var n := |stack|;
    match op.code
    case PushTuple => (match push case Err(e) => Err(e) case Ok(v) => Ok(stack + [v]))
    case And => if n < 2 then Err(StackUnderflow(i)) else Ok(stack[..n - 2] + [conj(stack[n - 2], stack[n - 1])])
    case Or => if n < 2 then Err(StackUnderflow(i)) else Ok(stack[..n - 2] + [disj(stack[n - 2], stack[n - 1])])
    case Not => if n < 1 then Err(StackUnderflow(i)) else Ok(stack[..n - 1] + [neg(stack[n - 1])])
    case Nop => Ok(stack)
  }

  function EvalStep(p: PredicateDef, attrs: seq<Fr>, i: nat, stack: seq<bool>): Result<seq<bool>, PredicateError>
    requires i < |p.ops|
  {
    Step(p.ops[i], i, stack,
         if p.ops[i].operand < |p.tuples| then EvalTuple(p.tuples[p.ops[i].operand], attrs) else Err(OperandOutOfRange),
         (a, b) => a && b, (a, b) => a || b, a => !a)
  }

  function EvalFrom(p: PredicateDef, attrs: seq<Fr>, i: nat, stack: seq<bool>): Result<bool, PredicateError>
    requires i <= |p.ops|
    decreases |p.ops| - i
  {
    if i == |p.ops| then (if |stack| != 1 then Err(NonSingletonResult(|stack|)) else Ok(stack[0]))
    else match EvalStep(p, attrs, i, stack)
      case Err(e) => Err(e)
      case Ok(next) => EvalFrom(p, attrs, i + 1, next)
  }

  function Evaluation(p: PredicateDef, attrs: seq<Fr>): Result<bool, PredicateError> {
    match Validate(p)
    case Some(e) => Err(e)
    case None => EvalFrom(p, attrs, 0, [])
  }

  method Evaluate(p: PredicateDef, attrs: seq<Fr>) returns (r: Result<bool, PredicateError>)
    ensures r == Evaluation(p, attrs)
  {
    match Validate(p) {
      case Some(e) => return Err(e);
      case None =>
    }
    ValidParts(p);
    var stack: seq<bool> := [];
    for i := 0 to |p.ops|
      invariant EvalFrom(p, attrs, i, stack) == EvalFrom(p, attrs, 0, [])
    {
      var op, n := p.ops[i], |stack|;
      assert OpError(op, |p.tuples|).None?;
      match op.code {
        case PushTuple =>
          match EvalTuple(p.tuples[op.operand], attrs) {
            case Err(e) => return Err(e);
            case Ok(v) => stack := stack + [v];
          }
        case And =>
          if n < 2 { return Err(StackUnderflow(i)); }
          stack := stack[..n - 2] + [stack[n - 2] && stack[n - 1]];
        case Or =>
          if n < 2 { return Err(StackUnderflow(i)); }
          stack := stack[..n - 2] + [stack[n - 2] || stack[n - 1]];
        case Not =>
          if n < 1 { return Err(StackUnderflow(i)); }
          stack := stack[..n - 1] + [!stack[n - 1]];
        case Nop =>
      }
    }
    if |stack| != 1 {
      return Err(NonSingletonResult(|stack|));
    }
    return Ok(stack[0]);
  }

  // ----- class binding -----

  datatype Tag = Bound | Free | Tainted

  function ConjTag(a: Tag, b: Tag): Tag {
    if a == Bound || b == Bound then Bound else if a == Tainted || b == Tainted then Tainted else Free
  }

  function DisjTag(a: Tag, b: Tag): Tag {
    if a == Bound && b == Bound then Bound else if a == Free && b == Free then Free else Tainted
  }

  function NegTag(a: Tag): Tag {
    if a == Bound then Tainted else a
  }

  function TaintStep(ops: seq<Op>, binding: set<nat>, i: nat, stack: seq<Tag>): Result<seq<Tag>, PredicateError>
    requires i < |ops|
  {
    Step(ops[i], i, stack, Ok(if ops[i].operand in binding then Bound else Free), ConjTag, DisjTag, NegTag)
  }

  function TaintFrom(ops: seq<Op>, binding: set<nat>, i: nat, stack: seq<Tag>): Result<Tag, PredicateError>
    requires i <= |ops|
    decreases |ops| - i
  {
    if i == |ops| then (if |stack| != 1 then Err(NonSingletonResult(|stack|)) else Ok(stack[0]))
    else match TaintStep(ops, binding, i, stack)
      case Err(e) => Err(e)
      case Ok(next) => TaintFrom(ops, binding, i + 1, next)
  }

  method EvaluateClassBindingTaint(ops: seq<Op>, binding: set<nat>) returns (r: Result<Tag, PredicateError>)
    ensures r == TaintFrom(ops, binding, 0, [])
  {
    var stack: seq<Tag> := [];
    for i := 0 to |ops|
      invariant TaintFrom(ops, binding, i, stack) == TaintFrom(ops, binding, 0, [])
    {
      var op, n := ops[i], |stack|;
      match op.code {
        case PushTuple =>
          stack := stack + [if op.operand in binding then Bound else Free];
        case And =>
          if n < 2 { return Err(StackUnderflow(i)); }
          stack := stack[..n - 2] + [ConjTag(stack[n - 2], stack[n - 1])];
        case Or =>
          if n < 2 { return Err(StackUnderflow(i)); }
          stack := stack[..n - 2] + [DisjTag(stack[n - 2], stack[n - 1])];
        case Not =>
          if n < 1 { return Err(StackUnderflow(i)); }
          stack := stack[..n - 1] + [NegTag(stack[n - 1])];
        case Nop =>
      }
    }
    if |stack| != 1 {
      return Err(NonSingletonResult(|stack|));
    }
    return Ok(stack[0]);
  }

  /** Tuples that compare the class attribute for equality with this class tag. */
  function StrictBinding(p: PredicateDef, classIndex: u8, tag: ClassTag): set<nat> {
    set i: nat | 0 <= i < |p.tuples| && p.tuples[i].claimIndex == classIndex && p.tuples[i].comparator == Eq
      && p.tuples[i].operand == tag
  }

  /** Tuples that compare the class attribute for equality with any 16-bit operand. */
  function LooseBinding(p: PredicateDef, classIndex: u8): set<nat> {
    set i: nat | 0 <= i < |p.tuples| && p.tuples[i].claimIndex == classIndex && p.tuples[i].comparator == Eq
      && p.tuples[i].operand < TWO_16
  }

  function ValidateClassBinding(p: PredicateDef, classIndex: u8, tag: ClassTag): Option<PredicateError> {
    var binding := StrictBinding(p, classIndex, tag);
    if binding == {} then Some(MissingClassBinding)
    else match TaintFrom(p.ops, binding, 0, [])
      case Err(e) => Some(e)
      case Ok(t) => if t == Bound then None else Some(MissingClassBinding)
  }

  function FirstBinding(p: PredicateDef, classIndex: u8, i: nat): (r: Option<ClassTag>)
    requires i <= |p.tuples|
    ensures r.None? <==> forall k :: i <= k < |p.tuples| ==> k !in LooseBinding(p, classIndex)
    ensures r.Some? ==> exists k :: i <= k && k in LooseBinding(p, classIndex) && p.tuples[k].operand == r.value
                                 && forall j :: i <= j < k ==> j !in LooseBinding(p, classIndex)
    decreases |p.tuples| - i
  {
    if i == |p.tuples| then None
    else if i in LooseBinding(p, classIndex) then Some(p.tuples[i].operand)
    else FirstBinding(p, classIndex, i + 1)
  }

  function FindClassBindingOperand(p: PredicateDef, classIndex: u8): Result<ClassTag, PredicateError> {
    match FirstBinding(p, classIndex, 0)
    case None => Err(MissingClassBinding)
    case Some(operand) =>
      match TaintFrom(p.ops, LooseBinding(p, classIndex), 0, [])
      case Err(e) => Err(e)
      case Ok(t) => if t == Bound then Ok(operand) else Err(MissingClassBinding)
  }

  // ----- soundness of the analysis -----

  /** Every position tagged Bound is true only if the goal holds. */
  ghost predicate Covers(tags: seq<Tag>, values: seq<bool>, goal: bool) {
    |tags| == |values| && forall k :: 0 <= k < |tags| && tags[k] == Bound && values[k] ==> goal
  }

  /** The two machines move in lockstep: either the evaluator stops at an attribute comparison, or both
      fail alike, or both go on with stacks of the same height that still cover the goal. */
  lemma StepLockstep(p: PredicateDef, attrs: seq<Fr>, binding: set<nat>, i: nat, tags: seq<Tag>, values: seq<bool>,
                     goal: bool)
    requires i < |p.ops| && Covers(tags, values, goal)
    requires forall k :: k in binding && k < |p.tuples| && EvalTuple(p.tuples[k], attrs) == Ok(true) ==> goal
    ensures match (TaintStep(p.ops, binding, i, tags), EvalStep(p, attrs, i, values))
            case (Ok(t), Ok(v)) => Covers(t, v, goal)
            case (Err(e), Err(f)) => e == f
            case (Ok(_), Err(e)) => e == ClaimOutOfRange || e == TypeMismatch || e == OperandOutOfRange
            case (Err(_), Ok(_)) => false
  {
  }

  lemma {:induction false} RunLockstep(p: PredicateDef, attrs: seq<Fr>, binding: set<nat>, i: nat, tags: seq<Tag>,
                                       values: seq<bool>, goal: bool)
    requires i <= |p.ops| && Covers(tags, values, goal)
    requires forall k :: k in binding && k < |p.tuples| && EvalTuple(p.tuples[k], attrs) == Ok(true) ==> goal
    ensures match (TaintFrom(p.ops, binding, i, tags), EvalFrom(p, attrs, i, values))
            case (Ok(t), Ok(v)) => t == Bound && v ==> goal
            case (Err(e), Err(f)) => e == f || f == ClaimOutOfRange || f == TypeMismatch || f == OperandOutOfRange
            case (Ok(_), Err(e)) => e == ClaimOutOfRange || e == TypeMismatch || e == OperandOutOfRange
            case (Err(_), Ok(_)) => false
    decreases |p.ops| - i
  {
    if i < |p.ops| {
      StepLockstep(p, attrs, binding, i, tags, values, goal);
      match (TaintStep(p.ops, binding, i, tags), EvalStep(p, attrs, i, values))
      case (Ok(t), Ok(v)) => RunLockstep(p, attrs, binding, i + 1, t, v, goal);
      case _ =>
    }
  }

  /** The evaluator's tuple errors on a valid predicate: only an attribute index out of range. */
  lemma {:induction false} ValidErrors(p: PredicateDef, attrs: seq<Fr>, i: nat, values: seq<bool>)
    requires Validate(p).None? && i <= |p.ops|
    ensures EvalFrom(p, attrs, i, values) != Err(TypeMismatch)
    ensures EvalFrom(p, attrs, i, values) != Err(OperandOutOfRange)
    decreases |p.ops| - i
  {
    ValidParts(p);
    if i < |p.ops| {
      assert OpError(p.ops[i], |p.tuples|).None?;
      match EvalStep(p, attrs, i, values)
      case Ok(v) => ValidErrors(p, attrs, i + 1, v);
      case Err(_) =>
    }
  }

  /** Strict form: an accepted predicate that evaluates to true pins the class attribute to the tag. */
  lemma StrictBindingSound(p: PredicateDef, attrs: seq<Fr>, classIndex: u8, tag: ClassTag)
    requires ValidateClassBinding(p, classIndex, tag).None? && Evaluation(p, attrs) == Ok(true)
    ensures classIndex < |attrs| && attrs[classIndex] == tag
  {
    var goal := classIndex < |attrs| && attrs[classIndex] == tag;
    RunLockstep(p, attrs, StrictBinding(p, classIndex, tag), 0, [], [], goal);
  }

  /** Loose form: the class attribute is one of the binding operands. */
  lemma LooseBindingSound(p: PredicateDef, attrs: seq<Fr>, classIndex: u8)
    requires FindClassBindingOperand(p, classIndex).Ok? && Evaluation(p, attrs) == Ok(true)
    ensures classIndex < |attrs|
    ensures exists k :: k in LooseBinding(p, classIndex) && p.tuples[k].operand == attrs[classIndex]
    ensures exists k :: k in LooseBinding(p, classIndex)
                     && p.tuples[k].operand == FindClassBindingOperand(p, classIndex).value
  {
    var goal := classIndex < |attrs| && exists k ::
      k in LooseBinding(p, classIndex) && p.tuples[k].operand == attrs[classIndex];
    forall k | k in LooseBinding(p, classIndex) && EvalTuple(p.tuples[k], attrs) == Ok(true) ensures goal {
      assert attrs[classIndex] == p.tuples[k].operand;
    }
    RunLockstep(p, attrs, LooseBinding(p, classIndex), 0, [], [], goal);
  }

  /** Acceptance by the analysis, with any binding set, rules out every stack error of the evaluator: a
      valid predicate then evaluates, or names an attribute the vector does not have. */
  lemma AcceptedNeverUnderflows(p: PredicateDef, attrs: seq<Fr>, binding: set<nat>)
    requires Validate(p).None? && TaintFrom(p.ops, binding, 0, []).Ok?
    ensures Evaluation(p, attrs).Ok? || Evaluation(p, attrs) == Err(ClaimOutOfRange)
  {
    RunLockstep(p, attrs, binding, 0, [], [], true);
    ValidErrors(p, attrs, 0, []);
  }
}
