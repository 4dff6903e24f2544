/**
 * The fixed-arity solver: four numbers, three operators and four fixed
 * bracket patterns, tried for every ordering of the numbers.
 */
module Make10 {
  import opened Arith
  import opened Generators

  /** Tolerance both for snapping to an integer and for matching the target. */
  const SnapTolerance: real := 0.0000000001

  /** The pieces of a printed formula; the rendering of a number is not modelled. */
  datatype Token = Num(x: real) | Sym(op: Op) | Open | Close

  datatype Expression = Expression(formula: seq<Token>, result: real)

  datatype Solution = Solution(expression: Expression, numbers: seq<real>)

  /** Math.round: the nearest integer, halves rounded up. */
  function Round(x: real): int
  {
    (x + 0.5).Floor
  }

  /**
   * A result within the tolerance of its rounding is replaced by it; so
   * snapping moves a value by less than the tolerance, only onto an
   * integer, and always when an integer is that close.
   */
  function Snap(x: real): (r: real)
    ensures Abs(r - x) < SnapTolerance
    ensures r != x ==> r == r.Floor as real
    ensures (exists n: int :: NearInteger(x, n)) ==> r == r.Floor as real
  {
    if Abs(x - Round(x) as real) < SnapTolerance then Round(x) as real
    else
      NoIntegerNear(x);
      x
  }

  /** The integer n lies within the snapping tolerance of x. */
  predicate NearInteger(x: real, n: int)
  {
    Abs(x - n as real) < SnapTolerance
  }

  /** An integer within the tolerance of x is the rounding of x. */
  lemma RoundOfNearInteger(x: real, n: int)
    requires NearInteger(x, n)
    ensures Round(x) == n
  {
    assert n as real <= x + 0.5 < n as real + 1.0;
  }

  /** When the rounding of x is not within the tolerance, no integer is. */
  lemma NoIntegerNear(x: real)
    requires Abs(x - Round(x) as real) >= SnapTolerance
    ensures !exists n: int :: NearInteger(x, n)
  {
    if n: int :| NearInteger(x, n) {
      RoundOfNearInteger(x, n);
    }
  }

  /** Exactly four numbers, three operators and a pattern 0..3. */
  predicate WellFormed(numbers: seq<real>, operators: seq<Op>, pattern: int)
  {
    |numbers| == 4 && |operators| == 3 && 0 <= pattern <= 3
  }

  /**
   * What each pattern computes: 0 and 1 fold left to right, 2 groups the
   * middle pair, 3 nests to the right.
   */
  function Shape(numbers: seq<real>, operators: seq<Op>, pattern: int): Term
    requires WellFormed(numbers, operators, pattern)
  {
    var a, b, c, d := Lit(numbers[0]), Lit(numbers[1]), Lit(numbers[2]), Lit(numbers[3]);
    var o1, o2, o3 := operators[0], operators[1], operators[2];
    if pattern == 0 || pattern == 1 then Bin(o3, Bin(o2, Bin(o1, a, b), c), d)
    else if pattern == 2 then Bin(o3, Bin(o1, a, Bin(o2, b, c)), d)
    else Bin(o1, a, Bin(o2, b, Bin(o3, c, d)))
  }

  /** What each pattern prints. */
  function Formula(numbers: seq<real>, operators: seq<Op>, pattern: int): seq<Token>
    requires WellFormed(numbers, operators, pattern)
  {
    var a, b, c, d := Num(numbers[0]), Num(numbers[1]), Num(numbers[2]), Num(numbers[3]);
    var o1, o2, o3 := Sym(operators[0]), Sym(operators[1]), Sym(operators[2]);
    if pattern == 0 then [a, o1, b, o2, c, o3, d]
    else if pattern == 1 then [Open, a, o1, b, Close, o2, c, o3, d]
    else if pattern == 2 then [a, o1, Open, b, o2, c, Close, o3, d]
    else [a, o1, b, o2, Open, c, o3, d, Close]
  }

  /**
   * The outcome of evaluateExpression: no expression for a malformed call
   * or a division by zero, otherwise the printed formula and the snapped
   * value of the pattern.
   */
  function Evaluated(numbers: seq<real>, operators: seq<Op>, pattern: int): Option<Expression>
  {
    if !WellFormed(numbers, operators, pattern) then None
    else
      match Eval(Shape(numbers, operators, pattern))
      case None => None
      case Some(v) => Some(Expression(Formula(numbers, operators, pattern), Snap(v)))
  }

  /**
   * evaluateExpression yields nothing exactly for a malformed call or a
   * division by a zero divisor; otherwise the formula as printed and a
   * result within the tolerance of the pattern's value.
   */
  lemma EvaluatedMeaning(numbers: seq<real>, operators: seq<Op>, pattern: int)
    ensures var r := Evaluated(numbers, operators, pattern);
            r.None? <==>
              !WellFormed(numbers, operators, pattern) || ZeroDivision(Shape(numbers, operators, pattern))
    ensures var r := Evaluated(numbers, operators, pattern);
            r.Some? ==>
              && WellFormed(numbers, operators, pattern)
              && Eval(Shape(numbers, operators, pattern)).Some?
              && r.value.formula == Formula(numbers, operators, pattern)
              && Abs(r.value.result - Eval(Shape(numbers, operators, pattern)).value) < SnapTolerance
  {
    if WellFormed(numbers, operators, pattern) {
      EvalFailsIffZeroDivision(Shape(numbers, operators, pattern));
    }
  }

  /** Patterns 0 and 1 differ only in the printed formula, never in value. */
  lemma PatternsZeroAndOneAgree(numbers: seq<real>, operators: seq<Op>)
    requires |numbers| == 4 && |operators| == 3
    ensures Evaluated(numbers, operators, 0).Some? <==> Evaluated(numbers, operators, 1).Some?
    ensures Evaluated(numbers, operators, 0).Some? ==>
              Evaluated(numbers, operators, 0).value.result == Evaluated(numbers, operators, 1).value.result &&
              Evaluated(numbers, operators, 0).value.formula != Evaluated(numbers, operators, 1).value.formula
  {
  }

  /** The left-to-right fold over the first i + 1 numbers (the loop of pattern 0). */
  function LeftChain(numbers: seq<real>, operators: seq<Op>, i: nat): Term
    requires |numbers| == 4 && |operators| == 3 && i <= 3
  {
    if i == 0 then Lit(numbers[0])
    else Bin(operators[i - 1], LeftChain(numbers, operators, i - 1), Lit(numbers[i]))
  }

  lemma {:induction false} LeftChainStuck(numbers: seq<real>, operators: seq<Op>, i: nat)
    requires |numbers| == 4 && |operators| == 3 && i <= 3
    requires Eval(LeftChain(numbers, operators, i)).None?
    ensures Eval(LeftChain(numbers, operators, 3)).None?
    decreases 3 - i
  {
    if i < 3 {
      LeftChainStuck(numbers, operators, i + 1);
    }
  }

  /** Pattern 0: fold left to right, extending the formula by one operator and number per step. */
  method LeftToRight(numbers: seq<real>, operators: seq<Op>) returns (value: Option<real>, formula: seq<Token>)
    requires |numbers| == 4 && |operators| == 3
    ensures value == Eval(Shape(numbers, operators, 0))
    ensures value.Some? ==> formula == Formula(numbers, operators, 0)
  {
    var result := numbers[0];
    formula := [Num(numbers[0])];
    for i := 0 to 3
      invariant formula == Formula(numbers, operators, 0)[..2 * i + 1]
      invariant Eval(LeftChain(numbers, operators, i)) == Some(result)
    {
      formula := formula + [Sym(operators[i]), Num(numbers[i + 1])];
      var step := Calculate(result, numbers[i + 1], operators[i]);
      if step.None? {
        LeftChainStuck(numbers, operators, i + 1);
        assert LeftChain(numbers, operators, 3) == Shape(numbers, operators, 0);
        return None, formula;
      }
      result := step.value;
    }
    assert LeftChain(numbers, operators, 1) == Bin(operators[0], Lit(numbers[0]), Lit(numbers[1]));
    assert LeftChain(numbers, operators, 3) == Shape(numbers, operators, 0);
    value := Some(result);
  }

  /** Pattern 1: the first pair in parentheses, then c and d in turn. */
  method FirstPairGrouped(numbers: seq<real>, operators: seq<Op>) returns (value: Option<real>, formula: seq<Token>)
    requires |numbers| == 4 && |operators| == 3
    ensures value == Eval(Shape(numbers, operators, 1))
    ensures value.Some? ==> formula == Formula(numbers, operators, 1)
  {
    ghost var ab := Bin(operators[0], Lit(numbers[0]), Lit(numbers[1]));
    ghost var abc := Bin(operators[1], ab, Lit(numbers[2]));
    assert Shape(numbers, operators, 1) == Bin(operators[2], abc, Lit(numbers[3]));
    var temp := Calculate(numbers[0], numbers[1], operators[0]);
    formula := [Open, Num(numbers[0]), Sym(operators[0]), Num(numbers[1]), Close];
    assert Eval(ab) == temp;
    if temp.None? {
      assert Eval(abc).None?;
      return None, formula;
    }
    var temp2 := Calculate(temp.value, numbers[2], operators[1]);
    formula := formula + [Sym(operators[1]), Num(numbers[2])];
    assert Eval(abc) == temp2;
    if temp2.None? {
      return None, formula;
    }
    value := Calculate(temp2.value, numbers[3], operators[2]);
    formula := formula + [Sym(operators[2]), Num(numbers[3])];
  }

  /** Pattern 2: the middle pair in parentheses, combined with a, then d. */
  method MiddlePairGrouped(numbers: seq<real>, operators: seq<Op>) returns (value: Option<real>, formula: seq<Token>)
    requires |numbers| == 4 && |operators| == 3
    ensures value == Eval(Shape(numbers, operators, 2))
    ensures value.Some? ==> formula == Formula(numbers, operators, 2)
  {
    ghost var bc := Bin(operators[1], Lit(numbers[1]), Lit(numbers[2]));
    ghost var abc := Bin(operators[0], Lit(numbers[0]), bc);
    assert Shape(numbers, operators, 2) == Bin(operators[2], abc, Lit(numbers[3]));
    var temp := Calculate(numbers[1], numbers[2], operators[1]);
    var tempFormula := [Open, Num(numbers[1]), Sym(operators[1]), Num(numbers[2]), Close];
    assert Eval(bc) == temp;
    if temp.None? {
      assert Eval(abc).None?;
      return None, [];
    }
    var temp2 := Calculate(numbers[0], temp.value, operators[0]);
    formula := [Num(numbers[0]), Sym(operators[0])] + tempFormula;
    assert Eval(abc) == temp2;
    if temp2.None? {
      return None, formula;
    }
    value := Calculate(temp2.value, numbers[3], operators[2]);
    formula := formula + [Sym(operators[2]), Num(numbers[3])];
  }

  /** Pattern 3: the last pair in parentheses, combined with b, then with a. */
  method LastPairGrouped(numbers: seq<real>, operators: seq<Op>) returns (value: Option<real>, formula: seq<Token>)
    requires |numbers| == 4 && |operators| == 3
    ensures value == Eval(Shape(numbers, operators, 3))
    ensures value.Some? ==> formula == Formula(numbers, operators, 3)
  {
    ghost var cd := Bin(operators[2], Lit(numbers[2]), Lit(numbers[3]));
    ghost var bcd := Bin(operators[1], Lit(numbers[1]), cd);
    assert Shape(numbers, operators, 3) == Bin(operators[0], Lit(numbers[0]), bcd);
    var temp := Calculate(numbers[2], numbers[3], operators[2]);
    var tempFormula := [Open, Num(numbers[2]), Sym(operators[2]), Num(numbers[3]), Close];
    assert Eval(cd) == temp;
    if temp.None? {
      assert Eval(bcd).None?;
      return None, [];
    }
    var temp2 := Calculate(numbers[1], temp.value, operators[1]);
    formula := [Num(numbers[0]), Sym(operators[0]), Num(numbers[1]), Sym(operators[1])] + tempFormula;
    assert Eval(bcd) == temp2;
    if temp2.None? {
      return None, formula;
    }
    value := Calculate(numbers[0], temp2.value, operators[0]);
  }

  /**
   * evaluateExpression: the length check, the pattern switch, then the
   * snap of a near-integer result.
   */
  method EvaluateExpression(numbers: seq<real>, operators: seq<Op>, bracketPattern: int)
    returns (e: Option<Expression>)
    ensures e == Evaluated(numbers, operators, bracketPattern)
  {
    if |numbers| != 4 || |operators| != 3 {
      return None;
    }
    var value: Option<real>;
    var formula: seq<Token>;
    if bracketPattern == 0 {
      value, formula := LeftToRight(numbers, operators);
    } else if bracketPattern == 1 {
      value, formula := FirstPairGrouped(numbers, operators);
    } else if bracketPattern == 2 {
      value, formula := MiddlePairGrouped(numbers, operators);
    } else if bracketPattern == 3 {
      value, formula := LastPairGrouped(numbers, operators);
    } else {
      return None;
    }
    if value.None? {
      return None;
    }
    var result := value.value;
    if Abs(result - Round(result) as real) < SnapTolerance {
      result := Round(result) as real;
    }
    return Some(Expression(formula, result));
  }

  /** The combination (ordering, operator triple, pattern) reaches the target. */
  predicate Hit(perm: seq<real>, operators: seq<Op>, pattern: int, target: real)
  {
    var e := Evaluated(perm, operators, pattern);
    e.Some? && Abs(e.value.result - target) < SnapTolerance
  }

  /** Candidate (p', o', s') is tried before (p, o, s). */
  predicate Earlier(p': int, o': int, s': int, p: int, o: int, s: int)
  {
    p' < p || (p' == p && (o' < o || (o' == o && s' < s)))
  }

  /**
   * Candidate (p, o, s) of the search over orderings x operator triples x
   * patterns is a hit, and no candidate tried before it is.
   */
  predicate FirstHitAt(numbers: seq<real>, target: real, p: int, o: int, s: int)
  {
    var perms := Permutations(numbers);
    && 0 <= p < |perms| && 0 <= o < Pow4(3) && 0 <= s < 4
    && Hit(perms[p], Digits(o, 3), s, target)
    && forall p', o', s' ::
         0 <= p' < |perms| && 0 <= o' < Pow4(3) && 0 <= s' < 4 && Earlier(p', o', s', p, o, s)
         ==> !Hit(perms[p'], Digits(o', 3), s', target)
  }

  /** No candidate of the search over orderings x operator triples x patterns is a hit. */
  ghost predicate NoHit(numbers: seq<real>, target: real)
  {
    forall p, o, s ::
      0 <= p < |Permutations(numbers)| && 0 <= o < Pow4(3) && 0 <= s < 4
      ==> !Hit(Permutations(numbers)[p], Digits(o, 3), s, target)
  }

  /** A hit is found on a rearrangement of exactly four numbers. */
  lemma FirstHitUsesRearrangement(numbers: seq<real>, target: real, p: int, o: int, s: int)
    requires FirstHitAt(numbers, target, p, o, s)
    ensures |numbers| == 4
    ensures multiset(Permutations(numbers)[p]) == multiset(numbers)
    ensures !NoHit(numbers, target)
  {
    PermutationsAreRearrangements(numbers);
    assert Permutations(numbers)[p] in Permutations(numbers);
  }

  /**
   * Missing on every enumerated candidate means missing on every
   * rearrangement of the numbers with every operator triple and pattern.
   */
  lemma NoHitAmongRearrangements(numbers: seq<real>, target: real)
    requires NoHit(numbers, target)
    ensures forall perm, operators, s ::
              multiset(perm) == multiset(numbers) && |operators| == 3 && 0 <= s < 4
              ==> !Hit(perm, operators, s, target)
  {
    forall perm, operators, s | multiset(perm) == multiset(numbers) && |operators| == 3 && 0 <= s < 4
      ensures !Hit(perm, operators, s, target)
    {
      PermutationsComplete(numbers, perm);
      var o := DigitsIndex(operators);
    }
  }

  /**
   * A hit reached after every earlier candidate missed is the first hit:
   * the loop invariants of solveMake10 at the moment it returns.
   */
  lemma FoundFirst(numbers: seq<real>, target: real, p: int, o: int, s: int)
    requires 0 <= p < |Permutations(numbers)| && 0 <= o < Pow4(3) && 0 <= s < 4
    requires Hit(Permutations(numbers)[p], Digits(o, 3), s, target)
    requires forall p', o', s' :: 0 <= p' < p && 0 <= o' < Pow4(3) && 0 <= s' < 4
               ==> !Hit(Permutations(numbers)[p'], Digits(o', 3), s', target)
    requires forall o', s' :: 0 <= o' < o && 0 <= s' < 4
               ==> !Hit(Permutations(numbers)[p], Digits(o', 3), s', target)
    requires forall s' :: 0 <= s' < s ==> !Hit(Permutations(numbers)[p], Digits(o, 3), s', target)
    ensures FirstHitAt(numbers, target, p, o, s)
  {
  }

  /** The candidate tried first: the input order, all `+`, pattern 0. */
  lemma FirstCandidate(numbers: seq<real>, target: real)
    requires Hit(numbers, [Add, Add, Add], 0, target)
    ensures FirstHitAt(numbers, target, 0, 0, 0)
  {
    PermutationsFirstIsInput(numbers);
    DigitsZero(3);
    assert Digits(0, 3) == [Add, Add, Add];
    FoundFirst(numbers, target, 0, 0, 0);
  }

  /**
   * solveMake10([1, 2, 3, 4], 10) stops at its first candidate: the
   * formula `1 + 2 + 3 + 4` with result exactly 10.
   */
  lemma OneToFourMakesTen(s: seq<real>)
    requires s == [1.0, 2.0, 3.0, 4.0]
    ensures FirstHitAt(s, 10.0, 0, 0, 0)
    ensures Evaluated(s, [Add, Add, Add], 0) ==
              Some(Expression([Num(1.0), Sym(Add), Num(2.0), Sym(Add), Num(3.0), Sym(Add), Num(4.0)], 10.0))
  {
    var ops := [Add, Add, Add];
    assert WellFormed(s, ops, 0);
    assert Eval(Shape(s, ops, 0)) == Some(10.0);
    assert Round(10.0) == 10;
    assert Snap(10.0) == 10.0;
    FirstCandidate(s, 10.0);
  }

  /**
   * solveMake10: the first hit in ordering, then operator triple, then
   * pattern order; none when no combination hits, in particular for any
   * input whose length is not four.
   */
  method SolveMake10(numbers: seq<real>, target: real) returns (r: Option<Solution>)
    ensures |numbers| != 4 ==> r.None?
    ensures r.Some? ==>
              && multiset(r.value.numbers) == multiset(numbers)
              && Abs(r.value.expression.result - target) < SnapTolerance
    ensures r.Some? ==>
              exists p, o, s :: FirstHitAt(numbers, target, p, o, s) &&
                var perm := Permutations(numbers)[p];
                r.value == Solution(Evaluated(perm, Digits(o, 3), s).value, perm)
    ensures r.None? <==> NoHit(numbers, target)
    ensures r.None? ==>
              forall perm, operators, s ::
                multiset(perm) == multiset(numbers) && |operators| == 3 && 0 <= s < 4
                ==> !Hit(perm, operators, s, target)
  {
    var permutations := GeneratePermutations(numbers);
    var operatorCombinations := GenerateOperatorCombinations(3);
    for p := 0 to |permutations|
      invariant forall p', o', s' ::
                  0 <= p' < p && 0 <= o' < Pow4(3) && 0 <= s' < 4
                  ==> !Hit(Permutations(numbers)[p'], Digits(o', 3), s', target)
    {
      for o := 0 to |operatorCombinations|
        invariant forall o', s' :: 0 <= o' < o && 0 <= s' < 4
                    ==> !Hit(permutations[p], Digits(o', 3), s', target)
      {
        var ops := operatorCombinations[o];
        assert ops == Digits(o, 3);
        for s := 0 to 4
          invariant forall s' :: 0 <= s' < s ==> !Hit(permutations[p], ops, s', target)
        {
          var expression := EvaluateExpression(permutations[p], ops, s);
          if expression.Some? && Abs(expression.value.result - target) < SnapTolerance {
            FoundFirst(numbers, target, p, o, s);
            FirstHitUsesRearrangement(numbers, target, p, o, s);
            return Some(Solution(expression.value, permutations[p]));
          }
        }
      }
    }
    NoHitAmongRearrangements(numbers, target);
    return None;
  }
}
