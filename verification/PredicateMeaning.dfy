/** What a predicate means: postfix programs denote boolean expressions over attribute comparisons, the evaluator
    computes their truth and the taint analysis their binding structure. */
module PredicateMeaning {
  import opened Field
  import opened Wrappers
  import opened Predicate

  datatype Expr = Atom(tuple: u8) | Both(left: Expr, right: Expr) | Either(left: Expr, right: Expr) | Negated(arg: Expr)

  /** The postfix program of an expression. */
  function Code(e: Expr): seq<Op> {
    match e
    case Atom(k) => [Op(PushTuple, k)]
    case Both(a, b) => Code(a) + Code(b) + [Op(And, 0)]
    case Either(a, b) => Code(a) + Code(b) + [Op(Or, 0)]
    case Negated(a) => Code(a) + [Op(Not, 0)]
  }

  /** The attribute value meets the tuple's comparison; orders look at the low 64 bits. */
  predicate Holds(t: Tuple, v: Fr) {
    match t.comparator
    case Eq => v == t.operand % P
    case Le => v % TWO_64 <= t.operand
    case Ge => t.operand <= v % TWO_64
  }

  /** Every tuple mentioned exists and claims an attribute that exists. */
  predicate InRange(e: Expr, p: PredicateDef, attrs: seq<Fr>) {
    match e
    case Atom(k) => k < |p.tuples| && p.tuples[k].claimIndex < |attrs|
    case Both(a, b) => InRange(a, p, attrs) && InRange(b, p, attrs)
    case Either(a, b) => InRange(a, p, attrs) && InRange(b, p, attrs)
    case Negated(a) => InRange(a, p, attrs)
  }

  predicate Meaning(e: Expr, p: PredicateDef, attrs: seq<Fr>)
    requires InRange(e, p, attrs)
  {
    match e
    case Atom(k) => Holds(p.tuples[k], attrs[p.tuples[k].claimIndex])
    case Both(a, b) => Meaning(a, p, attrs) && Meaning(b, p, attrs)
    case Either(a, b) => Meaning(a, p, attrs) || Meaning(b, p, attrs)
    case Negated(a) => !Meaning(a, p, attrs)
  }

  /** The meaning, or that a claimed attribute is missing. */
  function Truth(e: Expr, p: PredicateDef, attrs: seq<Fr>): Result<bool, PredicateError> {
    if InRange(e, p, attrs) then Ok(Meaning(e, p, attrs)) else Err(ClaimOutOfRange)
  }

  /** What validation accepts, in the terms of the format. */
  lemma {:induction false} ValidIff(p: PredicateDef)
    ensures Validate(p).None? <==>
      && 1 <= |p.tuples| <= PREDICATE_TUPLE_MAX && 1 <= |p.ops| <= PREDICATE_OP_MAX
      && (forall i :: 0 <= i < |p.ops| ==>
            if p.ops[i].code == PushTuple then p.ops[i].operand < |p.tuples| else p.ops[i].operand == 0)
      && (forall i :: 0 <= i < |p.tuples| ==> WellTyped(p.tuples[i]))
  {
    ValidParts(p);
  }

  /** Integers fit 64 bits; hashes and booleans are compared for equality only, and a boolean is 0 or 1. */
  predicate WellTyped(t: Tuple) {
    match t.typeTag
    case Int64 => t.operand < TWO_64
    case Hash => t.comparator == Eq
    case Bool => t.comparator == Eq && t.operand <= 1
  }

  // ----- what programs denote -----

  function SymStep(ops: seq<Op>, i: nat, stack: seq<Expr>): Result<seq<Expr>, PredicateError>
    requires i < |ops|
  {
    Step(ops[i], i, stack, Ok(Atom(ops[i].operand)), (a, b) => Both(a, b), (a, b) => Either(a, b), a => Negated(a))
  }

  /** The expression a program leaves on the stack. */
  function Denoted(ops: seq<Op>, i: nat, stack: seq<Expr>): Result<Expr, PredicateError>
    requires i <= |ops|
    decreases |ops| - i
  {
    if i == |ops| then (if |stack| != 1 then Err(NonSingletonResult(|stack|)) else Ok(stack[0]))
    else match SymStep(ops, i, stack)
      case Err(e) => Err(e)
      case Ok(next) => Denoted(ops, i + 1, next)
  }

  lemma {:induction false} SymPush(ops: seq<Op>, i: nat, stack: seq<Expr>)
    requires i < |ops| && ops[i].code == PushTuple
    ensures Denoted(ops, i, stack) == Denoted(ops, i + 1, stack + [Atom(ops[i].operand)])
  {
  }

  lemma {:induction false} SymBinary(ops: seq<Op>, i: nat, stack: seq<Expr>, a: Expr, b: Expr)
    requires i < |ops| && (ops[i].code == And || ops[i].code == Or)
    ensures Denoted(ops, i, stack + [a] + [b])
         == Denoted(ops, i + 1, stack + [if ops[i].code == And then Both(a, b) else Either(a, b)])
  {
    var s, n := stack + [a] + [b], |stack| + 2;
    assert s[..n - 2] == stack && s[n - 2] == a && s[n - 1] == b;
  }

  lemma {:induction false} SymUnary(ops: seq<Op>, i: nat, stack: seq<Expr>, a: Expr)
    requires i < |ops| && ops[i].code == Not
    ensures Denoted(ops, i, stack + [a]) == Denoted(ops, i + 1, stack + [Negated(a)])
  {
    var s := stack + [a];
    assert s[..|s| - 1] == stack && s[|s| - 1] == a;
  }

  /** Padding operators do nothing. */
  lemma {:induction false} SymNop(ops: seq<Op>, i: nat, stack: seq<Expr>)
    requires i < |ops| && ops[i].code == Nop
    ensures Denoted(ops, i, stack) == Denoted(ops, i + 1, stack)
  {
  }

  /** The code `code` stands at position `i`. */
  ghost predicate StandsAt(ops: seq<Op>, i: nat, code: seq<Op>) {
    i + |code| <= |ops| && ops[i..i + |code|] == code
  }

  /** From position `i` on, what follows position `j` sees `e` pushed. */
  ghost predicate Pushes(ops: seq<Op>, i: nat, j: nat, e: Expr, stack: seq<Expr>) {
    i <= |ops| && j <= |ops| && Denoted(ops, i, stack) == Denoted(ops, j, stack + [e])
  }

  /** Running the code of an expression pushes the expression. */
  lemma {:induction false} CodeRuns(ops: seq<Op>, i: nat, e: Expr, stack: seq<Expr>)
    requires StandsAt(ops, i, Code(e))
    ensures Pushes(ops, i, i + |Code(e)|, e, stack)
    decreases e, 1
  {
    match e
    case Atom(k) => AtomRuns(ops, i, k, stack);
    case Negated(a) =>
      UnaryParts(ops, i, Code(a), Op(Not, 0));
      CodeRuns(ops, i, a, stack);
      UnaryRuns(ops, i, i + |Code(a)|, a, stack);
    case Both(a, b) => PairRuns(ops, i, e, a, b, Op(And, 0), stack);
    case Either(a, b) => PairRuns(ops, i, e, a, b, Op(Or, 0), stack);
  }

  lemma {:induction false} PairRuns(ops: seq<Op>, i: nat, e: Expr, a: Expr, b: Expr, last: Op, stack: seq<Expr>)
    requires (e == Both(a, b) && last.code == And) || (e == Either(a, b) && last.code == Or)
    requires StandsAt(ops, i, Code(a) + Code(b) + [last])
    ensures Pushes(ops, i, i + |Code(a)| + |Code(b)| + 1, e, stack)
    decreases e, 0
  {
    BinaryParts(ops, i, Code(a), Code(b), last);
    CodeRuns(ops, i, a, stack);
    CodeRuns(ops, i + |Code(a)|, b, stack + [a]);
    BinaryRuns(ops, i, i + |Code(a)|, i + |Code(a)| + |Code(b)|, a, b, stack);
  }

  lemma {:induction false} AtomRuns(ops: seq<Op>, i: nat, k: u8, stack: seq<Expr>)
    requires StandsAt(ops, i, [Op(PushTuple, k)])
    ensures Pushes(ops, i, i + 1, Atom(k), stack)
  {
    assert ops[i] == ops[i..i + 1][0];
    SymPush(ops, i, stack);
  }

  lemma {:induction false} UnaryRuns(ops: seq<Op>, i: nat, j: nat, a: Expr, stack: seq<Expr>)
    requires Pushes(ops, i, j, a, stack) && j < |ops| && ops[j].code == Not
    ensures Pushes(ops, i, j + 1, Negated(a), stack)
  {
    SymUnary(ops, j, stack, a);
  }

  lemma {:induction false} BinaryRuns(ops: seq<Op>, i: nat, j: nat, k: nat, a: Expr, b: Expr, stack: seq<Expr>)
    requires Pushes(ops, i, j, a, stack) && Pushes(ops, j, k, b, stack + [a])
    requires k < |ops| && (ops[k].code == And || ops[k].code == Or)
    ensures Pushes(ops, i, k + 1, if ops[k].code == And then Both(a, b) else Either(a, b), stack)
  {
    SymBinary(ops, k, stack, a, b);
  }

  lemma {:induction false} Parts(ops: seq<Op>, i: nat, a: seq<Op>, b: seq<Op>)
    requires StandsAt(ops, i, a + b)
    ensures StandsAt(ops, i, a) && StandsAt(ops, i + |a|, b)
  {
    var s, j := ops[i..i + |a + b|], i + |a|;
    assert s[..|a|] == a && s[|a|..] == b;
    assert ops[i..j] == s[..|a|] && ops[j..j + |b|] == s[|a|..];
  }

  lemma {:induction false} UnaryParts(ops: seq<Op>, i: nat, a: seq<Op>, last: Op)
    requires StandsAt(ops, i, a + [last])
    ensures StandsAt(ops, i, a) && ops[i + |a|] == last
  {
    Parts(ops, i, a, [last]);
    assert ops[i + |a|] == ops[i + |a|..i + |a| + 1][0];
  }

  lemma {:induction false} BinaryParts(ops: seq<Op>, i: nat, a: seq<Op>, b: seq<Op>, last: Op)
    requires StandsAt(ops, i, a + b + [last])
    ensures StandsAt(ops, i, a) && StandsAt(ops, i + |a|, b) && ops[i + |a| + |b|] == last
  {
    UnaryParts(ops, i, a + b, last);
    Parts(ops, i, a, b);
  }

  /** Every expression is denoted by its own code. */
  lemma {:induction false} CodeDenotes(e: Expr)
    ensures Denoted(Code(e), 0, []) == Ok(e)
  {
    var ops, none: seq<Expr> := Code(e), [];
    assert ops[0..|ops|] == ops && none + [e] == [e];
    CodeRuns(ops, 0, e, none);
  }

  // ----- the evaluator computes the meaning -----

  lemma {:induction false} CompareMeans(t: Tuple, v: Fr)
    requires TupleError(t).None?
    ensures Compare(t, v) == Ok(Holds(t, v))
  {
  }

  /** A stack of truth values that are the meanings of a stack of expressions. */
  ghost predicate Means(p: PredicateDef, attrs: seq<Fr>, stack: seq<Expr>, values: seq<bool>) {
    && |stack| == |values|
    && forall k :: 0 <= k < |stack| ==> InRange(stack[k], p, attrs) && values[k] == Meaning(stack[k], p, attrs)
  }

  lemma {:induction false} MeaningStep(p: PredicateDef, attrs: seq<Fr>, i: nat, stack: seq<Expr>, values: seq<bool>)
    requires Validate(p).None? && i < |p.ops| && Means(p, attrs, stack, values)
    ensures SymStep(p.ops, i, stack).Err? ==> EvalStep(p, attrs, i, values).Err?
    ensures SymStep(p.ops, i, stack).Ok? && EvalStep(p, attrs, i, values).Ok? ==>
      Means(p, attrs, SymStep(p.ops, i, stack).value, EvalStep(p, attrs, i, values).value)
    ensures SymStep(p.ops, i, stack).Ok? && EvalStep(p, attrs, i, values).Err? ==>
      && EvalStep(p, attrs, i, values) == Err(ClaimOutOfRange) && p.ops[i].code == PushTuple
      && !InRange(Atom(p.ops[i].operand), p, attrs)
  {
    ValidParts(p);
    assert OpError(p.ops[i], |p.tuples|).None?;
    if p.ops[i].code == PushTuple {
      var t := p.tuples[p.ops[i].operand];
      if t.claimIndex < |attrs| {
        CompareMeans(t, attrs[t.claimIndex]);
      }
    }
  }

  /** Nothing on the stack is ever dropped, so an atom out of range stays in the denoted expression. */
  lemma {:induction false} OutOfRangeStays(p: PredicateDef, attrs: seq<Fr>, i: nat, stack: seq<Expr>, k: nat)
    requires i <= |p.ops| && k < |stack| && !InRange(stack[k], p, attrs) && Denoted(p.ops, i, stack).Ok?
    ensures !InRange(Denoted(p.ops, i, stack).value, p, attrs)
    decreases |p.ops| - i
  {
    if i < |p.ops| {
      var next, n := SymStep(p.ops, i, stack).value, |stack|;
      var m := KeptAt(p, attrs, i, stack, k);
      OutOfRangeStays(p, attrs, i + 1, next, m);
    }
  }

  lemma {:induction false} KeptAt(p: PredicateDef, attrs: seq<Fr>, i: nat, stack: seq<Expr>, k: nat) returns (m: nat)
    requires i < |p.ops| && k < |stack| && !InRange(stack[k], p, attrs) && SymStep(p.ops, i, stack).Ok?
    ensures m < |SymStep(p.ops, i, stack).value| && !InRange(SymStep(p.ops, i, stack).value[m], p, attrs)
  {
    var next := SymStep(p.ops, i, stack).value;
    m := if k < |next| then k else |next| - 1;
  }

  /** From matching stacks on, the evaluator ends with the meaning of the denoted expression. */
  lemma {:induction false} RunMeans(p: PredicateDef, attrs: seq<Fr>, i: nat, stack: seq<Expr>, values: seq<bool>)
    requires Validate(p).None? && i <= |p.ops| && Means(p, attrs, stack, values)
    ensures Denoted(p.ops, i, stack).Err? ==> EvalFrom(p, attrs, i, values).Err?
    ensures Denoted(p.ops, i, stack).Ok? ==>
      EvalFrom(p, attrs, i, values) == Truth(Denoted(p.ops, i, stack).value, p, attrs)
    decreases |p.ops| - i
  {
    if i < |p.ops| {
      MeaningStep(p, attrs, i, stack, values);
      if SymStep(p.ops, i, stack).Ok? {
        var next := SymStep(p.ops, i, stack).value;
        if EvalStep(p, attrs, i, values).Ok? {
          RunMeans(p, attrs, i + 1, next, EvalStep(p, attrs, i, values).value);
        } else if Denoted(p.ops, i + 1, next).Ok? {
          assert next[|stack|] == Atom(p.ops[i].operand);
          OutOfRangeStays(p, attrs, i + 1, next, |stack|);
        }
      }
    }
  }

  /** Every valid predicate: if its program denotes an expression, evaluation gives the expression's truth, or reports
      a claimed attribute that is missing; if not, evaluation fails. */
  lemma {:induction false} EvaluationMeans(p: PredicateDef, attrs: seq<Fr>)
    requires Validate(p).None?
    ensures Denoted(p.ops, 0, []).Err? ==> Evaluation(p, attrs).Err?
    ensures Denoted(p.ops, 0, []).Ok? ==> Evaluation(p, attrs) == Truth(Denoted(p.ops, 0, []).value, p, attrs)
  {
    RunMeans(p, attrs, 0, [], []);
  }

  /** In particular the postfix code of an expression evaluates to its truth. */
  lemma {:induction false} CodeEvaluates(p: PredicateDef, e: Expr, attrs: seq<Fr>)
    requires Validate(p).None? && p.ops == Code(e) && InRange(e, p, attrs)
    ensures Evaluation(p, attrs) == Ok(Meaning(e, p, attrs))
  {
    CodeDenotes(e);
    EvaluationMeans(p, attrs);
  }

  // ----- the analysis computes the binding structure -----

  /** Truth of the expression forces the truth of a binding tuple, by its structure. */
  predicate BoundIn(e: Expr, binding: set<nat>) {
    match e
    case Atom(k) => k in binding
    case Both(a, b) => BoundIn(a, binding) || BoundIn(b, binding)
    case Either(a, b) => BoundIn(a, binding) && BoundIn(b, binding)
    case Negated(_) => false
  }

  /** No binding tuple is mentioned. */
  predicate FreeIn(e: Expr, binding: set<nat>) {
    match e
    case Atom(k) => k !in binding
    case Both(a, b) => FreeIn(a, binding) && FreeIn(b, binding)
    case Either(a, b) => FreeIn(a, binding) && FreeIn(b, binding)
    case Negated(a) => FreeIn(a, binding)
  }

  ghost predicate TagIs(e: Expr, binding: set<nat>, tag: Tag) {
    (tag == Bound <==> BoundIn(e, binding)) && (tag == Free <==> FreeIn(e, binding))
  }

  ghost predicate Tagged(stack: seq<Expr>, binding: set<nat>, tags: seq<Tag>) {
    |stack| == |tags| && forall k :: 0 <= k < |stack| ==> TagIs(stack[k], binding, tags[k])
  }

  lemma {:induction false} TagStep(ops: seq<Op>, binding: set<nat>, i: nat, stack: seq<Expr>, tags: seq<Tag>)
    requires i < |ops| && Tagged(stack, binding, tags)
    ensures SymStep(ops, i, stack).Err? <==> TaintStep(ops, binding, i, tags).Err?
    ensures SymStep(ops, i, stack).Err? ==> SymStep(ops, i, stack).error == TaintStep(ops, binding, i, tags).error
    ensures SymStep(ops, i, stack).Ok? ==>
      Tagged(SymStep(ops, i, stack).value, binding, TaintStep(ops, binding, i, tags).value)
  {
  }

  lemma {:induction false} RunTags(ops: seq<Op>, binding: set<nat>, i: nat, stack: seq<Expr>, tags: seq<Tag>)
    requires i <= |ops| && Tagged(stack, binding, tags)
    ensures Denoted(ops, i, stack).Err? ==> TaintFrom(ops, binding, i, tags) == Err(Denoted(ops, i, stack).error)
    ensures Denoted(ops, i, stack).Ok? ==>
      && TaintFrom(ops, binding, i, tags).Ok?
      && TagIs(Denoted(ops, i, stack).value, binding, TaintFrom(ops, binding, i, tags).value)
    decreases |ops| - i
  {
    if i < |ops| {
      TagStep(ops, binding, i, stack, tags);
      if SymStep(ops, i, stack).Ok? {
        RunTags(ops, binding, i + 1, SymStep(ops, i, stack).value, TaintStep(ops, binding, i, tags).value);
      }
    }
  }

  /** The program denotes an expression that the binding tuples bind. */
  predicate DenotesBound(ops: seq<Op>, binding: set<nat>) {
    Denoted(ops, 0, []).Ok? && BoundIn(Denoted(ops, 0, []).value, binding)
  }

  /** What the strict check accepts: programs bound by the tuples that equate the class attribute with the tag. */
  lemma {:induction false} StrictAcceptsIff(p: PredicateDef, classIndex: u8, tag: ClassTag, binding: set<nat>)
    requires forall k: nat :: k in binding <==>
      k < |p.tuples| && p.tuples[k].claimIndex == classIndex && p.tuples[k].comparator == Eq
        && p.tuples[k].operand == tag
    ensures ValidateClassBinding(p, classIndex, tag).None? <==> DenotesBound(p.ops, binding)
  {
    assert binding == StrictBinding(p, classIndex, tag);
    RunTags(p.ops, binding, 0, [], []);
    if Denoted(p.ops, 0, []).Ok? {
      BoundNeedsBinding(Denoted(p.ops, 0, []).value, binding);
    }
  }

  lemma {:induction false} BoundNeedsBinding(e: Expr, binding: set<nat>)
    ensures BoundIn(e, binding) ==> binding != {}
  {
    match e
    case Atom(_) =>
    case Both(a, b) => BoundNeedsBinding(a, binding); BoundNeedsBinding(b, binding);
    case Either(a, b) => BoundNeedsBinding(a, binding);
    case Negated(_) =>
  }

  /** What the loose check accepts: programs bound by the tuples that equate the class attribute with any 16-bit
      operand; it hands back the operand of the first such tuple. */
  lemma {:induction false} LooseAcceptsIff(p: PredicateDef, classIndex: u8, binding: set<nat>)
    requires forall k: nat :: k in binding <==>
      k < |p.tuples| && p.tuples[k].claimIndex == classIndex && p.tuples[k].comparator == Eq
        && p.tuples[k].operand < TWO_16
    ensures FindClassBindingOperand(p, classIndex).Ok? <==> DenotesBound(p.ops, binding)
    ensures FindClassBindingOperand(p, classIndex).Ok? ==> exists k ::
      && k in binding && p.tuples[k].operand == FindClassBindingOperand(p, classIndex).value
      && forall j :: j in binding ==> k <= j
  {
    assert binding == LooseBinding(p, classIndex);
    RunTags(p.ops, binding, 0, [], []);
    if Denoted(p.ops, 0, []).Ok? {
      BoundNeedsBinding(Denoted(p.ops, 0, []).value, binding);
    }
  }
}
