/** Class binding at registration: the design asks that a predicate force the class attribute into the
    petition's class set; the code compares only the first binding operand with that set. */
module ClassBinding {
  import opened Wrappers
  import opened Predicate
  import opened ClassSearch

  /** What registration checks. */
  predicate Registers(p: PredicateDef, classIndex: u8, classSet: seq<ClassTag>) {
    FindClassBindingOperand(p, classIndex).Ok? && FindClassBindingOperand(p, classIndex).value in classSet
  }

  /** What the design promises: whoever satisfies the predicate with `n` attributes has a class of the set. */
  ghost predicate ClassBound(p: PredicateDef, classIndex: u8, classSet: seq<ClassTag>, n: nat) {
    forall attrs {:trigger Evaluation(p, attrs)} :: |attrs| == n && Evaluation(p, attrs) == Ok(true) ==>
      classIndex < n && attrs[classIndex] in classSet
  }

  /** Tuples that compare the class attribute for equality with a member of the set. */
  function SetBinding(p: PredicateDef, classIndex: u8, classSet: seq<ClassTag>): set<nat> {
    set i: nat | 0 <= i < |p.tuples| && p.tuples[i].claimIndex == classIndex && p.tuples[i].comparator == Eq
      && p.tuples[i].operand in classSet
  }

  /** The structural rule of the design. */
  predicate DesignRule(p: PredicateDef, classIndex: u8, classSet: seq<ClassTag>) {
    TaintFrom(p.ops, SetBinding(p, classIndex, classSet), 0, []) == Ok(Bound)
  }

  /** The design's rule would keep the design's promise, for vectors of every length. */
  lemma DesignRuleSound(p: PredicateDef, classIndex: u8, classSet: seq<ClassTag>, n: nat)
    requires DesignRule(p, classIndex, classSet)
    ensures ClassBound(p, classIndex, classSet, n)
  {
    forall attrs {:trigger Evaluation(p, attrs)} | |attrs| == n && Evaluation(p, attrs) == Ok(true)
      ensures classIndex < n && attrs[classIndex] in classSet
    {
      var goal := classIndex < |attrs| && attrs[classIndex] in classSet;
      RunLockstep(p, attrs, SetBinding(p, classIndex, classSet), 0, [], [], goal);
    }
  }

  /** A check registration could make: no binding operand outside the class set passes the finite search. */
  predicate KeepsToClassSet(p: PredicateDef, classIndex: u8, classSet: seq<ClassTag>, n: nat) {
    forall k :: k in LooseBinding(p, classIndex) && p.tuples[k].operand !in classSet ==>
      !Found(p, classIndex, p.tuples[k].operand, n)
  }

  /** A registered predicate keeps the promise exactly when it passes that check. */
  lemma ClassBoundIff(p: PredicateDef, classIndex: u8, classSet: seq<ClassTag>, n: nat)
    requires Registers(p, classIndex, classSet)
    ensures ClassBound(p, classIndex, classSet, n) <==> KeepsToClassSet(p, classIndex, classSet, n)
  {
    forall attrs {:trigger Evaluation(p, attrs)} | |attrs| == n && Evaluation(p, attrs) == Ok(true)
      ensures classIndex < n && (attrs[classIndex] in classSet || !KeepsToClassSet(p, classIndex, classSet, n))
    {
      LooseBindingSound(p, attrs, classIndex);
      var k :| k in LooseBinding(p, classIndex) && p.tuples[k].operand == attrs[classIndex];
      SatisfiableIff(p, classIndex, p.tuples[k].operand, n);
    }
    if !KeepsToClassSet(p, classIndex, classSet, n) {
      var k :| k in LooseBinding(p, classIndex) && p.tuples[k].operand !in classSet
        && Found(p, classIndex, p.tuples[k].operand, n);
      SatisfiableIff(p, classIndex, p.tuples[k].operand, n);
    }
  }

  /** So a class set that holds every binding operand is enough. */
  lemma AllOperandsSuffice(p: PredicateDef, classIndex: u8, classSet: seq<ClassTag>, n: nat)
    requires Registers(p, classIndex, classSet)
    requires forall k :: k in LooseBinding(p, classIndex) ==> p.tuples[k].operand in classSet
    ensures ClassBound(p, classIndex, classSet, n) && DesignRule(p, classIndex, classSet)
  {
    ClassBoundIff(p, classIndex, classSet, n);
    assert SetBinding(p, classIndex, classSet) == LooseBinding(p, classIndex);
  }

  // ----- which predicates of the design are registered -----

  /** What is Bound below is Bound above. */
  ghost predicate BoundWithin(s: seq<Tag>, t: seq<Tag>) {
    |s| == |t| && forall k :: 0 <= k < |s| && s[k] == Bound ==> t[k] == Bound
  }

  lemma StepMonotone(ops: seq<Op>, few: set<nat>, more: set<nat>, i: nat, s: seq<Tag>, t: seq<Tag>)
    requires i < |ops| && few <= more && BoundWithin(s, t) && TaintStep(ops, few, i, s).Ok?
    ensures TaintStep(ops, more, i, t).Ok?
    ensures BoundWithin(TaintStep(ops, few, i, s).value, TaintStep(ops, more, i, t).value)
  {
  }

  /** A larger binding set keeps a Bound result Bound. */
  lemma {:induction false} BoundIsMonotone(ops: seq<Op>, few: set<nat>, more: set<nat>, i: nat, s: seq<Tag>,
                                           t: seq<Tag>)
    requires i <= |ops| && few <= more && BoundWithin(s, t) && TaintFrom(ops, few, i, s) == Ok(Bound)
    ensures TaintFrom(ops, more, i, t) == Ok(Bound)
    decreases |ops| - i
  {
    if i < |ops| {
      StepMonotone(ops, few, more, i, s, t);
      BoundIsMonotone(ops, few, more, i + 1, TaintStep(ops, few, i, s).value, TaintStep(ops, more, i, t).value);
    }
  }

  /** Without a binding tuple nothing is ever Bound. */
  lemma {:induction false} NothingBound(ops: seq<Op>, i: nat, s: seq<Tag>)
    requires i <= |ops| && forall k :: 0 <= k < |s| ==> s[k] != Bound
    ensures TaintFrom(ops, {}, i, s) != Ok(Bound)
    decreases |ops| - i
  {
    if i < |ops| && TaintStep(ops, {}, i, s).Ok? {
      NothingBound(ops, i + 1, TaintStep(ops, {}, i, s).value);
    }
  }

  /** A predicate that meets the design's rule is registered exactly when its first binding operand, used or not, is
      in the class set. */
  lemma DesignRuleRegistersIff(p: PredicateDef, classIndex: u8, classSet: seq<ClassTag>)
    requires DesignRule(p, classIndex, classSet)
    ensures FirstBinding(p, classIndex, 0).Some?
    ensures Registers(p, classIndex, classSet) <==> FirstBinding(p, classIndex, 0).value in classSet
  {
    var few, more := SetBinding(p, classIndex, classSet), LooseBinding(p, classIndex);
    BoundIsMonotone(p.ops, few, more, 0, [], []);
    NothingBound(p.ops, 0, []);
    assert few != {};
    var k :| k in few;
    assert k in more;
  }

  // ----- where code and design part -----

  const EITHER_CLASS := PredicateDef([Tuple(0, 1, Hash, Eq), Tuple(0, 2, Hash, Eq)],
                                     [Op(PushTuple, 0), Op(PushTuple, 1), Op(Or, 0)])
  const SECOND_CLASS := PredicateDef([Tuple(0, 9, Hash, Eq), Tuple(0, 1, Hash, Eq)], [Op(PushTuple, 1)])

  /** The attributes of a deployed signer. */
  const ATTR_COUNT := 4

  /** Registered with class set {1}, this predicate lets class 2 sign. */
  lemma FirstOperandIsNotEnough()
    ensures Registers(EITHER_CLASS, 0, [1]) && Evaluation(EITHER_CLASS, [2, 0, 0, 0]) == Ok(true)
    ensures !ClassBound(EITHER_CLASS, 0, [1], ATTR_COUNT)
  {
    var p, attrs := EITHER_CLASS, [2, 0, 0, 0];
    ValidParts(p);
    assert EvalFrom(p, attrs, 3, [true]) == Ok(true);
    assert EvalFrom(p, attrs, 2, [false, true]) == Ok(true);
    assert EvalFrom(p, attrs, 1, [false]) == Ok(true);
    assert 0 in LooseBinding(p, 0) && 1 in LooseBinding(p, 0);
    assert TaintFrom(p.ops, LooseBinding(p, 0), 3, [Bound]) == Ok(Bound);
    assert TaintFrom(p.ops, LooseBinding(p, 0), 2, [Bound, Bound]) == Ok(Bound);
    assert TaintFrom(p.ops, LooseBinding(p, 0), 1, [Bound]) == Ok(Bound);
    assert FirstBinding(p, 0, 0) == Some(1);
  }

  /** And this one, class-bound by the design's rule, is refused because of a tuple it never uses. */
  lemma FirstOperandIsTooStrict()
    ensures Validate(SECOND_CLASS).None? && DesignRule(SECOND_CLASS, 0, [1]) && !Registers(SECOND_CLASS, 0, [1])
  {
    var p := SECOND_CLASS;
    ValidParts(p);
    assert 1 in SetBinding(p, 0, [1]) && 0 in LooseBinding(p, 0);
    assert TaintFrom(p.ops, SetBinding(p, 0, [1]), 1, [Bound]) == Ok(Bound);
    assert FirstBinding(p, 0, 0) == Some(9);
  }
}
