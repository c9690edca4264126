/** A finite search that decides whether a signer of a given class can satisfy a predicate.

    Evaluation looks at an attribute only through comparisons with the operands of the tuples that claim it, so a
    few values per claim stand for all of them: the operands compared for equality, and, for each interval that the
    order comparisons cut out of the low 64 bits, one value that is none of these operands. */
module ClassSearch {
  import opened Field
  import opened Wrappers
  import opened Predicate

  /** Someone with `n` attributes whose class is `tag` can satisfy the predicate. */
  ghost predicate Satisfiable(p: PredicateDef, classIndex: u8, tag: nat, n: nat) {
    exists attrs {:trigger Evaluation(p, attrs)} ::
      |attrs| == n && Evaluation(p, attrs) == Ok(true) && classIndex < n && attrs[classIndex] == tag
  }

  // ----- the search -----

  function Claiming(p: PredicateDef, c: nat, comparator: Comparator): set<nat> {
    set k: nat | 0 <= k < |p.tuples| && p.tuples[k].claimIndex == c && p.tuples[k].comparator == comparator
  }

  /** The values claim `c` is compared with for equality. */
  function EqualTo(p: PredicateDef, c: nat): set<nat> {
    set k | k in Claiming(p, c, Eq) :: (FromBe(p.tuples[k].operand) as nat)
  }

  /** Where the intervals of claim `c` start. */
  function Starts(p: PredicateDef, c: nat): set<nat> {
    {0}
    + (set k | k in Claiming(p, c, Ge) :: p.tuples[k].operand % TWO_64)
    + (set k | k in Claiming(p, c, Le) :: p.tuples[k].operand % TWO_64 + 1)
  }

  function Shift(lo: nat, m: nat): nat {
    lo + m * TWO_64
  }

  /** For each start, values with these low 64 bits, one more than there are operands to avoid. */
  function Shifted(p: PredicateDef, c: nat): set<nat> {
    set lo, m | lo in Starts(p, c) && 0 <= m <= |EqualTo(p, c)| :: Shift(lo, m)
  }

  function Candidates(p: PredicateDef, classIndex: u8, tag: nat, c: nat): set<nat> {
    if c == classIndex then {tag} else EqualTo(p, c) + Shifted(p, c)
  }

  function CandidateSets(p: PredicateDef, classIndex: u8, tag: nat, n: nat): (cs: seq<set<nat>>)
    ensures |cs| == n
  {
    seq(n, c requires c >= 0 => Candidates(p, classIndex, tag, c))
  }

  /** Some completion of `attrs` with values of the given sets satisfies the predicate. */
  predicate Search(p: PredicateDef, cs: seq<set<nat>>, attrs: seq<Fr>)
    requires |attrs| <= |cs|
    decreases |cs| - |attrs|
  {
    if |attrs| == |cs| then Evaluation(p, attrs) == Ok(true)
    else exists v :: v in cs[|attrs|] && v < P && Search(p, cs, attrs + [v])
  }

  /** A signer of class `tag` with `n` attributes is found that satisfies the predicate. */
  predicate Found(p: PredicateDef, classIndex: u8, tag: nat, n: nat) {
    classIndex < n && Search(p, CandidateSets(p, classIndex, tag, n), [])
  }

  // ----- what the search finds is real -----

  lemma {:induction false} SearchSound(p: PredicateDef, cs: seq<set<nat>>, attrs: seq<Fr>) returns (w: seq<Fr>)
    requires |attrs| <= |cs| && Search(p, cs, attrs)
    ensures |w| == |cs| && Evaluation(p, w) == Ok(true) && attrs <= w
    ensures forall c :: |attrs| <= c < |w| ==> w[c] in cs[c]
    decreases |cs| - |attrs|
  {
    if |attrs| == |cs| {
      w := attrs;
    } else {
      var v: nat :| v in cs[|attrs|] && v < P && Search(p, cs, attrs + [v]);
      w := SearchSound(p, cs, attrs + [v]);
    }
  }

  lemma FoundIsReal(p: PredicateDef, classIndex: u8, tag: nat, n: nat)
    requires Found(p, classIndex, tag, n)
    ensures Satisfiable(p, classIndex, tag, n)
  {
    var w := SearchSound(p, CandidateSets(p, classIndex, tag, n), []);
    assert w[classIndex] in CandidateSets(p, classIndex, tag, n)[classIndex];
  }

  // ----- representatives -----

  /** No tuple on claim `c` tells `a` from `v`. */
  ghost predicate Stands(p: PredicateDef, c: nat, a: Fr, v: Fr) {
    forall k :: 0 <= k < |p.tuples| && p.tuples[k].claimIndex == c ==>
      Compare(p.tuples[k], a) == Compare(p.tuples[k], v)
  }

  /** The largest element of `s` up to `x`. */
  lemma {:induction false} LastStart(s: set<nat>, x: nat) returns (lo: nat)
    requires 0 in s
    ensures lo in s && lo <= x && forall y :: y in s && y <= x ==> y <= lo
    decreases x
  {
    if x in s {
      lo := x;
    } else {
      lo := LastStart(s, x - 1);
    }
  }

  /** The first `n` shifts of `lo`. */
  function Shifts(lo: nat, n: nat): set<nat> {
    if n == 0 then {} else Shifts(lo, n - 1) + {Shift(lo, n - 1)}
  }

  /** They are all different. */
  lemma {:induction false} ShiftsCount(lo: nat, n: nat)
    ensures |Shifts(lo, n)| == n
    ensures forall y :: y in Shifts(lo, n) ==> y < Shift(lo, n) && exists m :: 0 <= m < n && y == Shift(lo, m)
  {
    if n != 0 {
      ShiftsCount(lo, n - 1);
      assert Shift(lo, n - 1) !in Shifts(lo, n - 1);
    }
  }

  lemma SubsetCount(t: set<nat>, s: set<nat>)
    ensures t <= s ==> |t| <= |s|
  {
    if t <= s {
      assert s == t + (s - t);
    }
  }

  /** A set with `n` elements misses one of `n + 1` shifts. */
  lemma Missed(s: set<nat>, lo: nat) returns (m: nat)
    ensures m <= |s| && Shift(lo, m) !in s
  {
    var t := Shifts(lo, |s| + 1);
    ShiftsCount(lo, |s| + 1);
    SubsetCount(t, s);
    var y :| y in t && y !in s;
    m :| 0 <= m < |s| + 1 && y == Shift(lo, m);
  }

  lemma {:induction false} CountBelow(s: set<nat>, n: nat)
    requires forall k :: k in s ==> k < n
    ensures |s| <= n
  {
    if n != 0 {
      CountBelow(s - {n - 1}, n - 1);
    }
  }

  lemma {:induction false} ImageCount(s: set<nat>, p: PredicateDef)
    requires forall k :: k in s ==> k < |p.tuples|
    ensures |set k | k in s :: (FromBe(p.tuples[k].operand) as nat)| <= |s|
    decreases |s|
  {
    if s != {} {
      var x :| x in s;
      ImageCount(s - {x}, p);
      var v: nat := FromBe(p.tuples[x].operand);
      assert (set k | k in s :: (FromBe(p.tuples[k].operand) as nat))
          == (set k | k in s - {x} :: (FromBe(p.tuples[k].operand) as nat)) + {v};
    }
  }

  lemma EqualToCount(p: PredicateDef, c: nat)
    ensures |EqualTo(p, c)| <= |p.tuples|
  {
    ImageCount(Claiming(p, c, Eq), p);
    CountBelow(Claiming(p, c, Eq), |p.tuples|);
  }

  lemma ShiftLow(lo: nat, m: nat)
    requires lo < TWO_64 && m <= PREDICATE_TUPLE_MAX
    ensures Shift(lo, m) % TWO_64 == lo && Shift(lo, m) < P
  {
  }

  /** A tuple that is no equality on `v` or `a` cannot tell them apart if both lie in one interval. */
  lemma SameComparison(p: PredicateDef, c: nat, a: Fr, v: Fr, k: nat)
    requires k < |p.tuples| && p.tuples[k].claimIndex == c && a !in EqualTo(p, c) && v !in EqualTo(p, c)
    requires v % TWO_64 <= a % TWO_64
    requires forall y :: y in Starts(p, c) && y <= a % TWO_64 ==> y <= v % TWO_64
    ensures Compare(p.tuples[k], a) == Compare(p.tuples[k], v)
  {
    var t := p.tuples[k];
    match t.comparator
    case Eq =>
      assert k in Claiming(p, c, Eq) && (FromBe(t.operand) as nat) in EqualTo(p, c);
    case Ge =>
      assert k in Claiming(p, c, Ge) && t.operand % TWO_64 in Starts(p, c);
    case Le =>
      assert k in Claiming(p, c, Le) && t.operand % TWO_64 + 1 in Starts(p, c);
  }

  /** Every attribute value has a representative among the candidates. */
  lemma Representative(p: PredicateDef, c: nat, a: Fr) returns (v: Fr)
    requires |p.tuples| <= PREDICATE_TUPLE_MAX
    ensures v in EqualTo(p, c) + Shifted(p, c) && Stands(p, c, a, v)
  {
    if a in EqualTo(p, c) {
      v := a;
    } else {
      var lo := LastStart(Starts(p, c), a % TWO_64);
      var m := Missed(EqualTo(p, c), lo);
      EqualToCount(p, c);
      ShiftLow(lo, m);
      v := Shift(lo, m);
      assert v in Shifted(p, c);
      forall k | 0 <= k < |p.tuples| && p.tuples[k].claimIndex == c
        ensures Compare(p.tuples[k], a) == Compare(p.tuples[k], v)
      {
        SameComparison(p, c, a, v, k);
      }
    }
  }

  /** A candidate for claim `c` that stands for the attribute. */
  ghost predicate StandIn(p: PredicateDef, classIndex: u8, attrs: seq<Fr>, c: nat, v: Fr)
    requires classIndex < |attrs| && c < |attrs|
  {
    v in Candidates(p, classIndex, attrs[classIndex], c) && Stands(p, c, attrs[c], v)
  }

  lemma StandInExists(p: PredicateDef, classIndex: u8, attrs: seq<Fr>, c: nat) returns (v: Fr)
    requires |p.tuples| <= PREDICATE_TUPLE_MAX && classIndex < |attrs| && c < |attrs|
    ensures StandIn(p, classIndex, attrs, c, v)
  {
    if c == classIndex {
      v := attrs[c];
    } else {
      v := Representative(p, c, attrs[c]);
    }
  }

  lemma {:induction false} Representatives(p: PredicateDef, classIndex: u8, attrs: seq<Fr>, n: nat) returns (w: seq<Fr>)
    requires |p.tuples| <= PREDICATE_TUPLE_MAX && classIndex < |attrs| && n <= |attrs|
    ensures |w| == n && forall c {:trigger w[c]} :: 0 <= c < n ==> StandIn(p, classIndex, attrs, c, w[c])
  {
    if n == 0 {
      w := [];
    } else {
      w := Representatives(p, classIndex, attrs, n - 1);
      var v := StandInExists(p, classIndex, attrs, n - 1);
      w := w + [v];
    }
  }

  // ----- what stands for a satisfying vector satisfies -----

  ghost predicate StandsFor(p: PredicateDef, attrs: seq<Fr>, w: seq<Fr>) {
    forall k :: 0 <= k < |p.tuples| ==> EvalTuple(p.tuples[k], w) == EvalTuple(p.tuples[k], attrs)
  }

  lemma {:induction false} SameRun(p: PredicateDef, attrs: seq<Fr>, w: seq<Fr>, i: nat, stack: seq<bool>)
    requires StandsFor(p, attrs, w) && i <= |p.ops|
    ensures EvalFrom(p, w, i, stack) == EvalFrom(p, attrs, i, stack)
    decreases |p.ops| - i
  {
    if i < |p.ops| {
      assert EvalStep(p, w, i, stack) == EvalStep(p, attrs, i, stack);
      if EvalStep(p, attrs, i, stack).Ok? {
        SameRun(p, attrs, w, i + 1, EvalStep(p, attrs, i, stack).value);
      }
    }
  }

  lemma SearchStep(p: PredicateDef, cs: seq<set<nat>>, attrs: seq<Fr>, v: Fr)
    requires |attrs| < |cs| && v in cs[|attrs|] && Search(p, cs, attrs + [v])
    ensures Search(p, cs, attrs)
  {
    var x: nat := v;
    assert x in cs[|attrs|];
  }

  lemma {:induction false} SearchFinds(p: PredicateDef, cs: seq<set<nat>>, w: seq<Fr>, n: nat)
    requires |w| == |cs| && n <= |cs| && Evaluation(p, w) == Ok(true) && forall c :: 0 <= c < |w| ==> w[c] in cs[c]
    ensures Search(p, cs, w[..n])
    decreases |cs| - n
  {
    if n == |cs| {
      assert w[..n] == w;
    } else {
      SearchFinds(p, cs, w, n + 1);
      assert w[..n] + [w[n]] == w[..n + 1];
      SearchStep(p, cs, w[..n], w[n]);
    }
  }

  lemma StandInIsFound(p: PredicateDef, classIndex: u8, attrs: seq<Fr>)
    requires Evaluation(p, attrs) == Ok(true) && classIndex < |attrs|
    ensures Found(p, classIndex, attrs[classIndex], |attrs|)
  {
    var w := Representatives(p, classIndex, attrs, |attrs|);
    forall k | 0 <= k < |p.tuples| ensures EvalTuple(p.tuples[k], w) == EvalTuple(p.tuples[k], attrs) {
      var c := p.tuples[k].claimIndex;
      if c < |attrs| {
        assert StandIn(p, classIndex, attrs, c, w[c]);
      }
    }
    SameRun(p, attrs, w, 0, []);
    SearchFinds(p, CandidateSets(p, classIndex, attrs[classIndex], |attrs|), w, 0);
    assert w[..0] == [];
  }

  /** The search decides satisfiability by a class, over all attribute vectors of a length, for every length. */
  lemma SatisfiableIff(p: PredicateDef, classIndex: u8, tag: nat, n: nat)
    ensures Satisfiable(p, classIndex, tag, n) <==> Found(p, classIndex, tag, n)
  {
    if Satisfiable(p, classIndex, tag, n) {
      var attrs :| |attrs| == n && Evaluation(p, attrs) == Ok(true) && classIndex < n && attrs[classIndex] == tag;
      StandInIsFound(p, classIndex, attrs);
    }
    if Found(p, classIndex, tag, n) {
      FoundIsReal(p, classIndex, tag, n);
    }
  }
}
