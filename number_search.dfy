/**
 * The general solver: repeatedly combine two of the remaining items with
 * one of the four operators until a single item is left, and accept it
 * when it lies within the tolerance of the target.
 *
 * An item keeps its value beside its expression; the expression is kept
 * as a fully parenthesised tree instead of its printed text.
 */
module NumberSearch {
  import opened Arith

  const Tolerance: real := 0.000001

  datatype Item = Item(value: real, expr: Term)

  /**
   * One step of the search: combine positions i < j with op, as
   * `items[i] op items[j]`, or as `items[j] op items[i]` when swapped.
   */
  datatype Move = Move(i: nat, j: nat, op: Op, swapped: bool)

  /** The operators for which the swapped order is also tried. */
  predicate NonCommutative(op: Op)
  {
    op == Sub || op == Div
  }

  /** A move the search tries on n items. */
  predicate Valid(m: Move, n: nat)
  {
    m.i < m.j < n && (m.swapped ==> NonCommutative(m.op))
  }

  /**
   * Move a is tried before move b: pairs ascending, then operators in
   * table order, then `a op b` before `b op a`.
   */
  predicate Before(a: Move, b: Move)
  {
    || a.i < b.i
    || (a.i == b.i && a.j < b.j)
    || (a.i == b.i && a.j == b.j && Rank(a.op) < Rank(b.op))
    || (a.i == b.i && a.j == b.j && a.op == b.op && !a.swapped && b.swapped)
  }

  /** The elements other than those at positions i and j, in their order. */
  function Rest<T>(s: seq<T>, i: nat, j: nat): (r: seq<T>)
    requires i < j < |s|
    ensures |r| == |s| - 2
    ensures forall k :: 0 <= k < |r| ==>
              r[k] == s[if k < i then k else if k < j - 1 then k + 1 else k + 2]
  {
    s[..i] + s[i + 1..j] + s[j + 1..]
  }

  /** The left operand of a move. */
  function Left(items: seq<Item>, m: Move): Item
    requires Valid(m, |items|)
  {
    if m.swapped then items[m.j] else items[m.i]
  }

  /** The right operand of a move. */
  function Right(items: seq<Item>, m: Move): Item
    requires Valid(m, |items|)
  {
    if m.swapped then items[m.i] else items[m.j]
  }

  /** The leaves of a term, left to right. */
  function Leaves(t: Term): seq<real>
  {
    match t
    case Lit(x) => [x]
    case Bin(_, l, r) => Leaves(l) + Leaves(r)
  }

  /** All numbers the items are built from. */
  function ItemLeaves(items: seq<Item>): multiset<real>
  {
    if items == [] then multiset{}
    else ItemLeaves(items[..|items| - 1]) + multiset(Leaves(items[|items| - 1].expr))
  }

  /** Every item's value is the value of its expression. */
  predicate Consistent(items: seq<Item>)
  {
    forall k :: 0 <= k < |items| ==> Eval(items[k].expr) == Some(items[k].value)
  }

  lemma {:induction false} ItemLeavesAppend(a: seq<Item>, b: seq<Item>)
    ensures ItemLeaves(a + b) == ItemLeaves(a) + ItemLeaves(b)
    decreases |b|
  {
    if b == [] {
      assert a + b == a;
    } else {
      var last := b[|b| - 1];
      assert (a + b)[..|a + b| - 1] == a + b[..|b| - 1];
      ItemLeavesAppend(a, b[..|b| - 1]);
    }
  }

  lemma ItemLeavesSingle(x: Item)
    ensures ItemLeaves([x]) == multiset(Leaves(x.expr))
  {
    assert [x][..0] == [];
  }

  lemma SplitAround<T>(s: seq<T>, i: nat, j: nat)
    requires i < j < |s|
    ensures s == s[..i] + [s[i]] + s[i + 1..j] + [s[j]] + s[j + 1..]
  {
    assert s[..i + 1] == s[..i] + [s[i]];
    assert s[..j] == s[..i + 1] + s[i + 1..j];
    assert s[..j + 1] == s[..j] + [s[j]];
    assert s == s[..j + 1] + s[j + 1..];
  }

  /** Removing positions i and j removes exactly their leaves. */
  lemma ItemLeavesRest(items: seq<Item>, i: nat, j: nat)
    requires i < j < |items|
    ensures ItemLeaves(items) ==
              ItemLeaves(Rest(items, i, j)) + multiset(Leaves(items[i].expr)) + multiset(Leaves(items[j].expr))
  {
    var a, b, c := items[..i], items[i + 1..j], items[j + 1..];
    SplitAround(items, i, j);
    assert Rest(items, i, j) == a + b + c;
    ItemLeavesAppend(a + [items[i]] + b + [items[j]], c);
    ItemLeavesAppend(a + [items[i]] + b, [items[j]]);
    ItemLeavesAppend(a + [items[i]], b);
    ItemLeavesAppend(a, [items[i]]);
    ItemLeavesAppend(a + b, c);
    ItemLeavesAppend(a, b);
    ItemLeavesSingle(items[i]);
    ItemLeavesSingle(items[j]);
  }

  /**
   * The items after a move: the others in their order, then the combined
   * item; nothing when the move divides by zero.
   */
  function Combine(items: seq<Item>, m: Move): (r: Option<seq<Item>>)
    requires Valid(m, |items|)
    ensures r.None? <==> m.op == Div && Right(items, m).value == 0.0
    ensures r.Some? ==>
              && |r.value| == |items| - 1
              && r.value[..|items| - 2] == Rest(items, m.i, m.j)
              && r.value[|items| - 2].expr == Bin(m.op, Left(items, m).expr, Right(items, m).expr)
              && Calculate(Left(items, m).value, Right(items, m).value, m.op) == Some(r.value[|items| - 2].value)
  {
    var a, b := Left(items, m), Right(items, m);
    match Calculate(a.value, b.value, m.op)
    case None => None
    case Some(v) =>
      var rest := Rest(items, m.i, m.j);
      var next := rest + [Item(v, Bin(m.op, a.expr, b.expr))];
      assert next[..|items| - 2] == rest;
      Some(next)
  }

  /** A move uses up its two items and keeps every number exactly once. */
  lemma CombineKeepsLeaves(items: seq<Item>, m: Move)
    requires Valid(m, |items|) && Combine(items, m).Some?
    ensures ItemLeaves(Combine(items, m).value) == ItemLeaves(items)
  {
    var next := Combine(items, m).value;
    var rest, last := next[..|items| - 2], next[|items| - 2];
    assert next == rest + [last];
    ItemLeavesRest(items, m.i, m.j);
    ItemLeavesAppend(rest, [last]);
    ItemLeavesSingle(last);
  }

  /** A move keeps every item's value equal to the value of its expression. */
  lemma CombineKeepsConsistent(items: seq<Item>, m: Move)
    requires Valid(m, |items|) && Combine(items, m).Some? && Consistent(items)
    ensures Consistent(Combine(items, m).value)
  {
    var next := Combine(items, m).value;
    var n := |items|;
    forall k | 0 <= k < n - 1
      ensures Eval(next[k].expr) == Some(next[k].value)
    {
      if k < n - 2 {
        assert next[k] == next[..n - 2][k];
      }
    }
  }

  // ---------------------------------------------------------------------
  // helper: the search, one function per loop of the source
  // ---------------------------------------------------------------------

  /** helper(items): the first expression found, in the fixed traversal order. */
  function Search(items: seq<Item>, target: real): Option<Term>
    decreases |items|, 4, 0
  {
    if |items| == 1 then
      if Abs(items[0].value - target) < Tolerance then Some(items[0].expr) else None
    else TryPairs(items, target, 0)
  }

  /** The loop over i, from i on. */
  function TryPairs(items: seq<Item>, target: real, i: nat): Option<Term>
    decreases |items|, 3, |items| - i
  {
    if i >= |items| then None
    else
      var found := TryPartners(items, target, i, i + 1);
      if found.Some? then found else TryPairs(items, target, i + 1)
  }

  /** The loop over j for a fixed i, from j on. */
  function TryPartners(items: seq<Item>, target: real, i: nat, j: nat): Option<Term>
    requires i < j
    decreases |items|, 2, |items| - j
  {
    if j >= |items| then None
    else
      var found := TryOps(items, target, i, j, 0);
      if found.Some? then found else TryPartners(items, target, i, j + 1)
  }

  /** The loop over the operator table for a fixed pair, from operator k on. */
  function TryOps(items: seq<Item>, target: real, i: nat, j: nat, k: nat): Option<Term>
    requires i < j < |items|
    decreases |items|, 1, |Operators| - k
  {
    if k >= |Operators| then None
    else
      var op := Operators[k];
      var first := Attempt(items, target, Move(i, j, op, false));
      if first.Some? then first
      else
        var second := if NonCommutative(op) then Attempt(items, target, Move(i, j, op, true)) else None;
        if second.Some? then second else TryOps(items, target, i, j, k + 1)
  }

  /** One move, followed by the search on the shorter list. */
  function Attempt(items: seq<Item>, target: real, m: Move): Option<Term>
    requires Valid(m, |items|)
    decreases |items|, 0, 0
  {
    match Combine(items, m)
    case None => None
    case Some(next) => Search(next, target)
  }

  // ---------------------------------------------------------------------
  // The search returns the first successful move, in traversal order
  // ---------------------------------------------------------------------

  /** The moves still to be tried by one of the loops. */
  datatype Window =
    | OpsFrom(i: nat, j: nat, k: nat)   // pair (i, j), operators from position k
    | PartnersFrom(i: nat, j: nat)      // first position i, second from j
    | PairsFrom(i: nat)                 // first position from i

  predicate In(m: Move, n: nat, w: Window)
  {
    && Valid(m, n)
    && match w
       case OpsFrom(i, j, k) => m.i == i && m.j == j && Rank(m.op) >= k
       case PartnersFrom(i, j) => m.i == i && m.j >= j
       case PairsFrom(i) => m.i >= i
  }

  /** `found` is the outcome of the first move of window w that succeeds, if any. */
  ghost predicate FirstIn(items: seq<Item>, target: real, w: Window, found: Option<Term>)
  {
    && (found.None? <==> forall m :: In(m, |items|, w) ==> Attempt(items, target, m).None?)
    && (found.Some? ==>
          exists m :: In(m, |items|, w) && Attempt(items, target, m) == found &&
            forall m' :: In(m', |items|, w) && Before(m', m) ==> Attempt(items, target, m').None?)
  }

  /** The moves of window OpsFrom(i, j, k) are those at operator k and those of OpsFrom(i, j, k + 1). */
  lemma OpsWindowSplit(n: nat, i: nat, j: nat, k: nat, m: Move)
    requires k < |Operators| && In(m, n, OpsFrom(i, j, k))
    ensures In(m, n, OpsFrom(i, j, k + 1)) ||
            m == Move(i, j, Operators[k], false) ||
            (m == Move(i, j, Operators[k], true) && NonCommutative(Operators[k]))
  {
    assert Operators[Rank(m.op)] == m.op;
  }

  lemma {:induction false} TryOpsFirst(items: seq<Item>, target: real, i: nat, j: nat, k: nat)
    requires i < j < |items|
    ensures FirstIn(items, target, OpsFrom(i, j, k), TryOps(items, target, i, j, k))
    decreases |Operators| - k
  {
    var n := |items|;
    if k < |Operators| {
      var op := Operators[k];
      var m0, m1 := Move(i, j, op, false), Move(i, j, op, true);
      assert Rank(op) == k;
      var first := Attempt(items, target, m0);
      var second := if NonCommutative(op) then Attempt(items, target, m1) else None;
      if first.Some? {
        assert In(m0, n, OpsFrom(i, j, k));
        forall m' | In(m', n, OpsFrom(i, j, k)) ensures !Before(m', m0) {
          OpsWindowSplit(n, i, j, k, m');
        }
      } else if second.Some? {
        assert In(m1, n, OpsFrom(i, j, k));
        forall m' | In(m', n, OpsFrom(i, j, k)) && Before(m', m1)
          ensures Attempt(items, target, m').None?
        {
          OpsWindowSplit(n, i, j, k, m');
        }
      } else {
        TryOpsFirst(items, target, i, j, k + 1);
        var found := TryOps(items, target, i, j, k + 1);
        assert TryOps(items, target, i, j, k) == found;
        forall m | In(m, n, OpsFrom(i, j, k)) && !In(m, n, OpsFrom(i, j, k + 1))
          ensures Attempt(items, target, m).None?
        {
          OpsWindowSplit(n, i, j, k, m);
        }
        if found.Some? {
          var m :| In(m, n, OpsFrom(i, j, k + 1)) && Attempt(items, target, m) == found &&
            forall m' :: In(m', n, OpsFrom(i, j, k + 1)) && Before(m', m) ==> Attempt(items, target, m').None?;
          assert In(m, n, OpsFrom(i, j, k));
        }
      }
    }
  }

  lemma {:induction false} TryPartnersFirst(items: seq<Item>, target: real, i: nat, j: nat)
    requires i < j
    ensures FirstIn(items, target, PartnersFrom(i, j), TryPartners(items, target, i, j))
    decreases |items| - j
  {
    var n := |items|;
    if j < n {
      TryOpsFirst(items, target, i, j, 0);
      var found := TryOps(items, target, i, j, 0);
      if found.Some? {
        var m :| In(m, n, OpsFrom(i, j, 0)) && Attempt(items, target, m) == found &&
          forall m' :: In(m', n, OpsFrom(i, j, 0)) && Before(m', m) ==> Attempt(items, target, m').None?;
        assert In(m, n, PartnersFrom(i, j));
      } else {
        TryPartnersFirst(items, target, i, j + 1);
        var later := TryPartners(items, target, i, j + 1);
        if later.Some? {
          var m :| In(m, n, PartnersFrom(i, j + 1)) && Attempt(items, target, m) == later &&
            forall m' :: In(m', n, PartnersFrom(i, j + 1)) && Before(m', m) ==> Attempt(items, target, m').None?;
          assert In(m, n, PartnersFrom(i, j));
        }
      }
    }
  }

  lemma {:induction false} TryPairsFirst(items: seq<Item>, target: real, i: nat)
    ensures FirstIn(items, target, PairsFrom(i), TryPairs(items, target, i))
    decreases |items| - i
  {
    var n := |items|;
    if i < n {
      TryPartnersFirst(items, target, i, i + 1);
      var found := TryPartners(items, target, i, i + 1);
      if found.Some? {
        var m :| In(m, n, PartnersFrom(i, i + 1)) && Attempt(items, target, m) == found &&
          forall m' :: In(m', n, PartnersFrom(i, i + 1)) && Before(m', m) ==> Attempt(items, target, m').None?;
        assert In(m, n, PairsFrom(i));
        forall m' | In(m', n, PairsFrom(i)) && Before(m', m)
          ensures Attempt(items, target, m').None?
        {
          assert In(m', n, PartnersFrom(i, i + 1));
        }
      } else {
        TryPairsFirst(items, target, i + 1);
        var later := TryPairs(items, target, i + 1);
        assert TryPairs(items, target, i) == later;
        forall m | In(m, n, PairsFrom(i)) && !In(m, n, PairsFrom(i + 1))
          ensures Attempt(items, target, m).None?
        {
          assert In(m, n, PartnersFrom(i, i + 1));
        }
        if later.Some? {
          var m :| In(m, n, PairsFrom(i + 1)) && Attempt(items, target, m) == later &&
            forall m' :: In(m', n, PairsFrom(i + 1)) && Before(m', m) ==> Attempt(items, target, m').None?;
          assert In(m, n, PairsFrom(i));
        }
      }
    }
  }

  /**
   * With other than one item, the search fails exactly when every move
   * fails, and otherwise returns what the first successful move returns:
   * pairs ascending, operators in table order, the swapped order (only for
   * - and /) right after the plain one.
   */
  lemma SearchFirstHit(items: seq<Item>, target: real)
    requires |items| != 1
    ensures Search(items, target).None? <==>
              forall m :: Valid(m, |items|) ==> Attempt(items, target, m).None?
    ensures Search(items, target).Some? ==>
              exists m :: Valid(m, |items|) && Attempt(items, target, m) == Search(items, target) &&
                forall m' :: Valid(m', |items|) && Before(m', m) ==> Attempt(items, target, m').None?
  {
    TryPairsFirst(items, target, 0);
    assert forall m :: Valid(m, |items|) <==> In(m, |items|, PairsFrom(0));
  }

  // ---------------------------------------------------------------------
  // Soundness and completeness
  // ---------------------------------------------------------------------

  /** t uses the numbers of `leaves`, each once, and evaluates to within the tolerance of target. */
  predicate Answers(t: Term, target: real, leaves: multiset<real>)
  {
    && Eval(t).Some?
    && Abs(Eval(t).value - target) < Tolerance
    && multiset(Leaves(t)) == leaves
  }

  /**
   * What the search returns is built from exactly the items' numbers, each
   * used once, and evaluates to within the tolerance of the target.
   */
  lemma {:induction false} SearchSound(items: seq<Item>, target: real)
    requires Consistent(items)
    ensures Search(items, target).Some? ==> Answers(Search(items, target).value, target, ItemLeaves(items))
    decreases |items|
  {
    var r := Search(items, target);
    if r.Some? {
      if |items| == 1 {
        assert items == [items[0]];
        ItemLeavesSingle(items[0]);
        assert r.value == items[0].expr;
        assert Eval(items[0].expr) == Some(items[0].value);
      } else {
        SearchFirstHit(items, target);
        var m :| Valid(m, |items|) && Attempt(items, target, m) == r;
        var next := Combine(items, m).value;
        CombineKeepsConsistent(items, m);
        CombineKeepsLeaves(items, m);
        SearchSound(next, target);
        assert r == Search(next, target);
      }
    }
  }

  /** The items left after playing the moves of a plan in turn. */
  function Run(items: seq<Item>, plan: seq<Move>): Option<seq<Item>>
    decreases |plan|
  {
    if plan == [] then Some(items)
    else if !Valid(plan[0], |items|) then None
    else
      match Combine(items, plan[0])
      case None => None
      case Some(next) => Run(next, plan[1..])
  }

  /** A plan that leaves one item within the tolerance of the target. */
  predicate Solves(items: seq<Item>, target: real, plan: seq<Move>)
  {
    var last := Run(items, plan);
    last.Some? && |last.value| == 1 && Abs(last.value[0].value - target) < Tolerance
  }

  /** Some plan of moves reaches the target. */
  ghost predicate Solvable(items: seq<Item>, target: real)
  {
    exists plan :: Solves(items, target, plan)
  }

  /** The search succeeds exactly when some plan of moves reaches the target. */
  lemma {:induction false} SearchComplete(items: seq<Item>, target: real)
    ensures Search(items, target).Some? <==> Solvable(items, target)
    decreases |items|
  {
    if |items| == 1 {
      if Search(items, target).None? {
        forall plan ensures !Solves(items, target, plan) {
          if plan != [] {
            assert !Valid(plan[0], |items|);
          }
        }
      } else {
        assert Solves(items, target, []);
      }
    } else {
      SearchFirstHit(items, target);
      if Search(items, target).Some? {
        var m :| Valid(m, |items|) && Attempt(items, target, m) == Search(items, target);
        var next := Combine(items, m).value;
        SearchComplete(next, target);
        var plan :| Solves(next, target, plan);
        assert ([m] + plan)[1..] == plan;
        assert Solves(items, target, [m] + plan);
      } else {
        forall plan | Solves(items, target, plan) ensures false {
          var m := plan[0];
          var next := Combine(items, m).value;
          assert Solves(next, target, plan[1..]);
          assert Attempt(items, target, m) == Search(next, target);
          SearchComplete(next, target);
        }
      }
    }
  }

  // ---------------------------------------------------------------------
  // The search as the source runs it
  // ---------------------------------------------------------------------

  /** helper: nested loops over i < j and the operator table, returning early on success. */
  method Helper(items: seq<Item>, target: real) returns (r: Option<Term>)
    ensures r == Search(items, target)
    decreases |items|
  {
    if |items| == 1 {
      return if Abs(items[0].value - target) < Tolerance then Some(items[0].expr) else None;
    }
    for i := 0 to |items|
      invariant TryPairs(items, target, 0) == TryPairs(items, target, i)
    {
      for j := i + 1 to |items|
        invariant TryPartners(items, target, i, i + 1) == TryPartners(items, target, i, j)
      {
        var a, b := items[i], items[j];
        var rest := Rest(items, i, j);
        for k := 0 to |Operators|
          invariant TryOps(items, target, i, j, 0) == TryOps(items, target, i, j, k)
        {
          var op := Operators[k];
          var r1 := Calculate(a.value, b.value, op);
          if r1.Some? {
            var sol1 := Helper(rest + [Item(r1.value, Bin(op, a.expr, b.expr))], target);
            assert sol1 == Attempt(items, target, Move(i, j, op, false));
            if sol1.Some? {
              return sol1;
            }
          }
          if op == Sub || op == Div {
            var r2 := Calculate(b.value, a.value, op);
            if r2.Some? {
              var sol2 := Helper(rest + [Item(r2.value, Bin(op, b.expr, a.expr))], target);
              assert sol2 == Attempt(items, target, Move(i, j, op, true));
              if sol2.Some? {
                return sol2;
              }
            }
          }
        }
      }
    }
    return None;
  }

  /** The items solveNumbers starts from: each number as a literal. */
  function InitialItems(nums: seq<real>): (r: seq<Item>)
    ensures |r| == |nums| && Consistent(r)
  {
    seq(|nums|, k requires 0 <= k < |nums| => Item(nums[k], Lit(nums[k])))
  }

  /** The starting items are built from exactly the input numbers. */
  lemma {:induction false} InitialLeaves(nums: seq<real>)
    ensures ItemLeaves(InitialItems(nums)) == multiset(nums)
    decreases |nums|
  {
    if nums != [] {
      var init := nums[..|nums| - 1];
      assert InitialItems(nums)[..|nums| - 1] == InitialItems(init);
      assert nums == init + [nums[|nums| - 1]];
      InitialLeaves(init);
    }
  }

  /** solveNumbers, as a function of its inputs. */
  function Solve(nums: seq<real>, target: real): Option<Term>
  {
    Search(InitialItems(nums), target)
  }

  /**
   * solveNumbers: an answer uses every input number exactly once and
   * evaluates to within the tolerance of the target; there is an answer
   * exactly when some sequence of moves reaches the target.
   */
  method SolveNumbers(nums: seq<real>, target: real) returns (r: Option<Term>)
    ensures r == Solve(nums, target)
    ensures r.Some? ==> Answers(r.value, target, multiset(nums))
    ensures r.Some? <==> Solvable(InitialItems(nums), target)
    ensures |nums| == 0 ==> r.None?
    ensures |nums| == 1 ==> (r.Some? <==> Abs(nums[0] - target) < Tolerance)
  {
    r := Helper(InitialItems(nums), target);
    InitialLeaves(nums);
    SearchSound(InitialItems(nums), target);
    SearchComplete(InitialItems(nums), target);
  }
}
