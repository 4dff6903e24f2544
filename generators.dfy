/**
 * The two enumerations the fixed-arity solver iterates over:
 * every ordering of the input numbers, and every sequence of operators
 * of a given length.
 */
module Generators {
  import opened Arith

  function Factorial(n: nat): nat
  {
    if n == 0 then 1 else n * Factorial(n - 1)
  }

  function Pow4(n: nat): nat
  {
    if n == 0 then 1 else 4 * Pow4(n - 1)
  }

  lemma MulStrict(a: int, b: int, m: nat)
    ensures a < b ==> a * m + m <= b * m
  {
    if a < b {
      var d := b - a - 1;
      assert d * m >= 0;
      assert (a + d + 1) * m == a * m + d * m + m;
    }
  }

  /** Euclidean division of an index k that falls in block q of blocks of size m. */
  lemma DivBlock(k: int, q: int, m: int)
    requires m > 0 && q * m <= k < q * m + m
    ensures k / m == q && k % m == k - q * m
  {
    var d := k / m;
    assert k == d * m + k % m;
    MulStrict(d, q, m);
    MulStrict(q, d, m);
  }

  // ---------------------------------------------------------------------
  // generatePermutations
  // ---------------------------------------------------------------------

  /** s without its element at position i. */
  function Remove(s: seq<real>, i: nat): (r: seq<real>)
    requires i < |s|
    ensures |r| == |s| - 1
    ensures multiset(r) + multiset{s[i]} == multiset(s)
  {
    assert s == s[..i] + [s[i]] + s[i + 1..];
    s[..i] + s[i + 1..]
  }

  /** Puts x in front of every sequence of ps. */
  function Prepend(x: real, ps: seq<seq<real>>): seq<seq<real>>
  {
    seq(|ps|, k requires 0 <= k < |ps| => [x] + ps[k])
  }

  lemma PrependSnoc(x: real, ps: seq<seq<real>>, k: nat)
    requires k < |ps|
    ensures Prepend(x, ps[..k + 1]) == Prepend(x, ps[..k]) + [[x] + ps[k]]
  {
  }

  /**
   * All orderings of s: an input of length at most one is its only
   * ordering; otherwise the orderings are grouped by the position of
   * their first element, ascending. There are |s|! of them.
   */
  function Permutations(s: seq<real>): (r: seq<seq<real>>)
    ensures |r| == Factorial(|s|)
    decreases |s|, 1
  {
    if |s| <= 1 then [s] else PermutationsUpTo(s, |s|)
  }

  /** The orderings of s whose first element is taken from positions 0 .. i-1. */
  function PermutationsUpTo(s: seq<real>, i: nat): (r: seq<seq<real>>)
    requires 2 <= |s| && i <= |s|
    ensures |r| == i * Factorial(|s| - 1)
    decreases |s|, 0, i
  {
    if i == 0 then []
    else PermutationsUpTo(s, i - 1) + Prepend(s[i - 1], Permutations(Remove(s, i - 1)))
  }

  /** Every enumerated ordering is a rearrangement of s. */
  lemma {:induction false} PermutationsAreRearrangements(s: seq<real>)
    ensures forall p :: p in Permutations(s) ==> |p| == |s| && multiset(p) == multiset(s)
    decreases |s|, 1
  {
    if |s| > 1 {
      PermutationsUpToAreRearrangements(s, |s|);
    }
  }

  lemma {:induction false} PermutationsUpToAreRearrangements(s: seq<real>, i: nat)
    requires 2 <= |s| && i <= |s|
    ensures forall p :: p in PermutationsUpTo(s, i) ==> |p| == |s| && multiset(p) == multiset(s)
    decreases |s|, 0, i
  {
    if i > 0 {
      PermutationsUpToAreRearrangements(s, i - 1);
      var rest := Remove(s, i - 1);
      PermutationsAreRearrangements(rest);
      var block := Prepend(s[i - 1], Permutations(rest));
      forall p | p in block
        ensures |p| == |s| && multiset(p) == multiset(s)
      {
        var k :| 0 <= k < |block| && block[k] == p;
        assert p == [s[i - 1]] + Permutations(rest)[k];
        assert Permutations(rest)[k] in Permutations(rest);
      }
    }
  }

  /** The loop of generatePermutations, with its recursive call. */
  method GeneratePermutations(numbers: seq<real>) returns (result: seq<seq<real>>)
    ensures result == Permutations(numbers)
    ensures |numbers| <= 1 ==> result == [numbers]
    decreases |numbers|
  {
    if |numbers| <= 1 {
      return [numbers];
    }
    result := [];
    for i := 0 to |numbers|
      invariant result == PermutationsUpTo(numbers, i)
    {
      var current := numbers[i];
      var remaining := numbers[..i] + numbers[i + 1..];
      assert remaining == Remove(numbers, i);
      var permutations := GeneratePermutations(remaining);
      for k := 0 to |permutations|
        invariant result == PermutationsUpTo(numbers, i) + Prepend(current, permutations[..k])
      {
        PrependSnoc(current, permutations, k);
        result := result + [[current] + permutations[k]];
      }
      assert permutations[..|permutations|] == permutations;
      assert PermutationsUpTo(numbers, i + 1) == PermutationsUpTo(numbers, i) + Prepend(current, permutations);
    }
  }

  /** Position k of PermutationsUpTo(s, i) that falls in its last block. */
  lemma PermutationsLastBlockAt(s: seq<real>, i: nat, k: nat)
    requires 2 <= |s| && 1 <= i <= |s|
    requires (i - 1) * Factorial(|s| - 1) <= k < (i - 1) * Factorial(|s| - 1) + Factorial(|s| - 1)
    ensures var m := Factorial(|s| - 1);
            k / m == i - 1 &&
            PermutationsUpTo(s, i)[k] == [s[k / m]] + Permutations(Remove(s, k / m))[k % m]
  {
    var m := Factorial(|s| - 1);
    var q := i - 1;
    var front := PermutationsUpTo(s, q);
    var rest := Permutations(Remove(s, q));
    var block := Prepend(s[q], rest);
    assert PermutationsUpTo(s, i) == front + block;
    assert |front| == q * m && |rest| == m;
    DivBlock(k, q, m);
    var j := k - q * m;
    assert 0 <= j < |block| && (front + block)[k] == block[j];
    assert block[j] == [s[q]] + rest[j];
  }

  /** The k-th block of PermutationsUpTo holds the orderings starting with s[k]. */
  lemma {:induction false} PermutationsUpToAt(s: seq<real>, i: nat, k: nat)
    requires 2 <= |s| && i <= |s| && k < i * Factorial(|s| - 1)
    ensures var m := Factorial(|s| - 1);
            k / m < |s| &&
            PermutationsUpTo(s, i)[k] == [s[k / m]] + Permutations(Remove(s, k / m))[k % m]
    decreases i
  {
    var m := Factorial(|s| - 1);
    assert i * m == (i - 1) * m + m;
    if k < (i - 1) * m {
      PermutationsUpToAt(s, i - 1, k);
      assert PermutationsUpTo(s, i) == PermutationsUpTo(s, i - 1)
        + Prepend(s[i - 1], Permutations(Remove(s, i - 1)));
    } else {
      PermutationsLastBlockAt(s, i, k);
    }
  }

  /**
   * The orderings come in |s| blocks of (|s|-1)! each; block q holds
   * s[q] followed by the orderings of the other elements, in order.
   */
  lemma PermutationsGrouped(s: seq<real>, k: nat)
    requires 2 <= |s| && k < Factorial(|s|)
    ensures var m := Factorial(|s| - 1);
            k / m < |s| &&
            Permutations(s)[k] == [s[k / m]] + Permutations(Remove(s, k / m))[k % m]
  {
    PermutationsUpToAt(s, |s|, k);
  }

  lemma {:induction false} FactorialPositive(n: nat)
    ensures Factorial(n) >= 1
  {
    if n > 0 {
      FactorialPositive(n - 1);
    }
  }

  /** The first ordering generated is the input itself: position 0 is taken first at every level. */
  lemma {:induction false} PermutationsFirstIsInput(s: seq<real>)
    ensures |Permutations(s)| > 0 && Permutations(s)[0] == s
    decreases |s|
  {
    FactorialPositive(|s|);
    if |s| >= 2 {
      FactorialPositive(|s| - 1);
      PermutationsGrouped(s, 0);
      assert 0 / Factorial(|s| - 1) == 0 && 0 % Factorial(|s| - 1) == 0;
      assert Remove(s, 0) == s[1..];
      PermutationsFirstIsInput(s[1..]);
      assert s == [s[0]] + s[1..];
    }
  }

  lemma {:induction false} PermutationsUpToContains(s: seq<real>, n: nat, i: nat, p: seq<real>)
    requires 2 <= |s| && i < n <= |s|
    requires p in Prepend(s[i], Permutations(Remove(s, i)))
    ensures p in PermutationsUpTo(s, n)
    decreases n
  {
    if i < n - 1 {
      PermutationsUpToContains(s, n - 1, i, p);
    }
  }

  /** Every rearrangement of s is among its enumerated orderings. */
  lemma {:induction false} PermutationsComplete(s: seq<real>, p: seq<real>)
    requires multiset(p) == multiset(s)
    ensures p in Permutations(s)
    decreases |s|
  {
    assert |p| == |multiset(p)| == |s|;
    if |s| == 0 {
      assert p == s;
    } else if |s| == 1 {
      assert p[0] in multiset(s);
      assert p == s;
    } else {
      assert p[0] in multiset(s);
      var i :| 0 <= i < |s| && s[i] == p[0];
      var rest := Remove(s, i);
      assert p == [p[0]] + p[1..];
      assert multiset(p) == multiset{p[0]} + multiset(p[1..]);
      assert multiset(s) == multiset(rest) + multiset{p[0]};
      assert multiset(p[1..]) == multiset(p) - multiset{p[0]};
      assert multiset(rest) == multiset(s) - multiset{p[0]};
      PermutationsComplete(rest, p[1..]);
      var perms := Permutations(rest);
      var k :| 0 <= k < |perms| && perms[k] == p[1..];
      assert Prepend(s[i], perms)[k] == p;
      PermutationsUpToContains(s, |s|, i, p);
    }
  }

  // ---------------------------------------------------------------------
  // generateOperatorCombinations
  // ---------------------------------------------------------------------

  /**
   * What `generate(prefix, depth)` appends to the result: prefix followed
   * by every operator sequence of length depth, the first position
   * varying slowest.
   */
  function Extend(prefix: seq<Op>, depth: nat): (r: seq<seq<Op>>)
    ensures |r| == Pow4(depth)
    decreases depth, 1
  {
    if depth == 0 then [prefix] else ExtendUpTo(prefix, depth, |Operators|)
  }

  /** What the loop over the operator table has appended after i operators. */
  function ExtendUpTo(prefix: seq<Op>, depth: nat, i: nat): (r: seq<seq<Op>>)
    requires 1 <= depth && i <= |Operators|
    ensures |r| == i * Pow4(depth - 1)
    decreases depth, 0, i
  {
    if i == 0 then []
    else
      var block := Extend(prefix + [Operators[i - 1]], depth - 1);
      ExtendUpTo(prefix, depth, i - 1) + block
  }

  function OperatorCombinations(n: nat): seq<seq<Op>>
  {
    Extend([], n)
  }

  /** The base-4 expansion of k over the operator table, most significant first. */
  function Digits(k: nat, n: nat): (r: seq<Op>)
    requires k < Pow4(n)
    ensures |r| == n
  {
    if n == 0 then []
    else
      var m := Pow4(n - 1);
      assert k / m < 4 by {
        assert k == (k / m) * m + k % m;
        MulStrict(3, k / m, m);
      }
      [Operators[k / m]] + Digits(k % m, n - 1)
  }

  lemma {:induction false} ExtendAt(prefix: seq<Op>, depth: nat, k: nat)
    requires k < Pow4(depth)
    ensures Extend(prefix, depth)[k] == prefix + Digits(k, depth)
    decreases depth, 1
  {
    if depth > 0 {
      ExtendUpToAt(prefix, depth, |Operators|, k);
    }
  }

  lemma {:induction false} ExtendUpToAt(prefix: seq<Op>, depth: nat, i: nat, k: nat)
    requires 1 <= depth && i <= |Operators| && k < i * Pow4(depth - 1)
    ensures ExtendUpTo(prefix, depth, i)[k] == prefix + Digits(k, depth)
    decreases depth, 0, i
  {
    var m := Pow4(depth - 1);
    if k < (i - 1) * m {
      ExtendUpToAt(prefix, depth, i - 1, k);
    } else {
      DivBlock(k, i - 1, m);
      ExtendAt(prefix + [Operators[i - 1]], depth - 1, k - (i - 1) * m);
    }
  }

  /**
   * There are 4^n operator sequences, each of length n, and the k-th is
   * the base-4 expansion of k: lexicographic order over + - * / with the
   * first position varying slowest; n = 0 gives only the empty sequence.
   */
  /** Index 0 is the sequence that uses only the first operator of the table, `+`. */
  lemma {:induction false} DigitsZero(n: nat)
    ensures Pow4(n) > 0 && forall i :: 0 <= i < n ==> Digits(0, n)[i] == Add
  {
    if n > 0 {
      DigitsZero(n - 1);
      assert 0 / Pow4(n - 1) == 0 && 0 % Pow4(n - 1) == 0;
      assert Digits(0, n) == [Add] + Digits(0, n - 1);
    }
  }

  lemma OperatorCombinationsAt(n: nat, k: nat)
    requires k < Pow4(n)
    ensures |OperatorCombinations(n)| == Pow4(n)
    ensures OperatorCombinations(n)[k] == Digits(k, n)
  {
    ExtendAt([], n, k);
  }

  /**
   * The position of an operator sequence among the sequences of its
   * length: the inverse of Digits, so every sequence is enumerated.
   */
  function DigitsIndex(c: seq<Op>): (k: nat)
    ensures k < Pow4(|c|) && Digits(k, |c|) == c
  {
    if c == [] then 0
    else
      var m := Pow4(|c| - 1);
      var rest := DigitsIndex(c[1..]);
      var k := Rank(c[0]) * m + rest;
      MulStrict(Rank(c[0]), 4, m);
      DivBlock(k, Rank(c[0]), m);
      assert c == [c[0]] + c[1..];
      k
  }

  /**
   * The push/pop backtracking of generateOperatorCombinations: `current`
   * is the shared stack of chosen operators, `result` the sequence that
   * receives a copy of every complete sequence.
   */
  class CombinationBuilder {
    var current: seq<Op>
    var result: seq<seq<Op>>

    constructor ()
      ensures current == [] && result == []
    {
      current := [];
      result := [];
    }

    /** generate(current, depth): leaves current as it found it. */
    method Generate(depth: nat)
      modifies this
      ensures current == old(current)
      ensures result == old(result) + Extend(old(current), depth)
      decreases depth
    {
      if depth == 0 {
        result := result + [current];
        return;
      }
      for i := 0 to |Operators|
        invariant current == old(current)
        invariant result == old(result) + ExtendUpTo(old(current), depth, i)
      {
        ghost var before := result;
        ghost var pushed := old(current) + [Operators[i]];
        current := current + [Operators[i]];
        Generate(depth - 1);
        assert result == before + Extend(pushed, depth - 1);
        current := current[..|current| - 1];
        assert ExtendUpTo(old(current), depth, i + 1)
          == ExtendUpTo(old(current), depth, i) + Extend(pushed, depth - 1);
      }
    }
  }

  /**
   * generateOperatorCombinations(length): 4^length sequences, the k-th
   * being the base-4 expansion of k.
   */
  method GenerateOperatorCombinations(length: nat) returns (r: seq<seq<Op>>)
    ensures |r| == Pow4(length)
    ensures forall k :: 0 <= k < |r| ==> r[k] == Digits(k, length)
    ensures length == 0 ==> r == [[]]
  {
    var builder := new CombinationBuilder();
    builder.Generate(length);
    r := builder.result;
    assert r == OperatorCombinations(length);
    forall k | 0 <= k < |r|
      ensures r[k] == Digits(k, length)
    {
      OperatorCombinationsAt(length, k);
    }
  }
}
