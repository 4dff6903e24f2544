/**
 * The concrete cases of the general solver: no expression over
 * 1, 2, 3, 4 reaches 100, while 1, 6, 8, 8 reach 18, 13, 1, 6, 8, 8
 * reach 13, and 16, 1, 2, 2, 6, 7, 9 reach 16.
 *
 * The first is proved with a potential. Every value the search builds is
 * a fraction p/q, and the weight |p| + q of a combined item is at most the
 * product of the weights of its operands. So the product of the weights
 * of the items never grows, and a last item of weight W is below W in
 * absolute value.
 */
module NumberSearchCases {
  import opened Arith
  import opened NumberSearch

  datatype Frac = Frac(num: int, den: int)

  function IntAbs(x: int): nat
  {
    if x < 0 then -x else x
  }

  /** f is a fraction with a positive denominator whose value is v. */
  predicate Represents(f: Frac, v: real)
  {
    f.den >= 1 && v * f.den as real == f.num as real
  }

  function Weight(f: Frac): nat
  {
    IntAbs(f.num) + IntAbs(f.den)
  }

  /** The fraction the operation produces from two fractions, unreduced. */
  function FracOf(op: Op, a: Frac, b: Frac): Frac
  {
    match op
    case Add => Frac(a.num * b.den + b.num * a.den, a.den * b.den)
    case Sub => Frac(a.num * b.den - b.num * a.den, a.den * b.den)
    case Mul => Frac(a.num * b.num, a.den * b.den)
    case Div =>
      if b.num > 0 then Frac(a.num * b.den, a.den * b.num)
      else if b.num < 0 then Frac(-(a.num * b.den), -(a.den * b.num))
      else Frac(0, 1)
  }

  lemma AbsMul(x: int, y: int)
    ensures IntAbs(x * y) == IntAbs(x) * IntAbs(y)
  {
    if x < 0 && y < 0 {
      assert x * y == (-x) * (-y);
    } else if x < 0 {
      assert -(x * y) == (-x) * y;
    } else if y < 0 {
      assert -(x * y) == x * (-y);
    }
  }

  lemma RealMul(p: int, q: int)
    ensures (p * q) as real == p as real * q as real
  {
  }

  lemma Expand(p: int, q: int, r: int, t: int)
    ensures (p + q) * (r + t) == p * r + p * t + q * r + q * t
  {
  }

  /** The weight of any combination of a and b is at most the product of their weights. */
  lemma FracOfWeight(op: Op, a: Frac, b: Frac)
    requires a.den >= 1 && b.den >= 1
    ensures Weight(FracOf(op, a, b)) <= Weight(a) * Weight(b)
  {
    var an, ad, bn, bd := IntAbs(a.num), a.den, IntAbs(b.num), b.den;
    AbsMul(a.num, b.den);
    AbsMul(b.num, a.den);
    AbsMul(a.den, b.den);
    AbsMul(a.num, b.num);
    AbsMul(a.den, b.num);
    Expand(an, ad, bn, bd);
    assert an * bn >= 0 && an * bd >= 0 && ad * bn >= 0 && ad * bd >= 0;
    assert Weight(a) * Weight(b) == an * bn + an * bd + ad * bn + ad * bd;
  }

  /** A sum or difference of represented values is represented by FracOf. */
  lemma AddSound(a: Frac, b: Frac, x: real, y: real)
    requires Represents(a, x) && Represents(b, y)
    ensures Represents(FracOf(Add, a, b), x + y)
    ensures Represents(FracOf(Sub, a, b), x - y)
  {
    MulMono(a.den, b.den, 1);
    RealMul(a.den, b.den);
    RealMul(a.num, b.den);
    RealMul(b.num, a.den);
    var ar, br := a.den as real, b.den as real;
    assert (x + y) * (ar * br) == (x * ar) * br + (y * br) * ar;
    assert (x - y) * (ar * br) == (x * ar) * br - (y * br) * ar;
  }

  /** A product of represented values is represented by FracOf. */
  lemma MulSound(a: Frac, b: Frac, x: real, y: real)
    requires Represents(a, x) && Represents(b, y)
    ensures Represents(FracOf(Mul, a, b), x * y)
  {
    MulMono(a.den, b.den, 1);
    RealMul(a.den, b.den);
    RealMul(a.num, b.num);
    var ar, br := a.den as real, b.den as real;
    assert (x * y) * (ar * br) == (x * ar) * (y * br);
  }

  lemma DivRepresents(an: int, ad: int, bn: int, bd: int, x: real, y: real)
    requires ad >= 1 && bd >= 1 && x * ad as real == an as real && y * bd as real == bn as real && y != 0.0
    ensures (x / y) * (ad * bn) as real == (an * bd) as real
  {
    RealMul(ad, bn);
    RealMul(an, bd);
    var ar, br, nr := ad as real, bd as real, bn as real;
    var q := x / y;
    assert q * y == x;
    calc {
      q * (ar * nr);
      q * (ar * (y * br));
      (q * y) * ar * br;
      x * ar * br;
    }
  }

  lemma MulMono(p: int, q: int, r: int)
    requires p >= 0 && q >= r
    ensures p * q >= p * r
  {
  }

  /** A quotient by a non-zero represented value is represented by FracOf. */
  lemma DivSound(a: Frac, b: Frac, x: real, y: real)
    requires Represents(a, x) && Represents(b, y) && y != 0.0
    ensures Represents(FracOf(Div, a, b), x / y)
  {
    assert b.num != 0;
    DivRepresents(a.num, a.den, b.num, b.den, x, y);
    var r := FracOf(Div, a, b);
    if b.num > 0 {
      MulMono(a.den, b.num, 1);
      assert r == Frac(a.num * b.den, a.den * b.num);
    } else {
      MulMono(a.den, -b.num, 1);
      assert r == Frac(-(a.num * b.den), -(a.den * b.num));
      assert a.den * -b.num == -(a.den * b.num);
      RealMul(a.den, b.num);
      RealMul(a.num, b.den);
      RealMul(-1, a.den * b.num);
      RealMul(-1, a.num * b.den);
    }
  }

  /** A combined value is represented by the combined fractions, whose weight is bounded. */
  lemma FracOfSound(op: Op, a: Frac, b: Frac, x: real, y: real)
    requires Represents(a, x) && Represents(b, y) && Calculate(x, y, op).Some?
    ensures Represents(FracOf(op, a, b), Calculate(x, y, op).value)
    ensures Weight(FracOf(op, a, b)) <= Weight(a) * Weight(b)
  {
    FracOfWeight(op, a, b);
    match op
    case Add => AddSound(a, b, x, y);
    case Sub => AddSound(a, b, x, y);
    case Mul => MulSound(a, b, x, y);
    case Div => DivSound(a, b, x, y);
  }

  /** A value is no larger in size than the numerator of its fraction. */
  lemma ValueBound(f: Frac, v: real)
    requires Represents(f, v)
    ensures Abs(v) <= IntAbs(f.num) as real
  {
    if v < 0.0 {
      assert (-v) * f.den as real >= -v;
    } else {
      assert v * f.den as real >= v;
    }
  }

  function WeightProduct(fr: seq<Frac>): nat
  {
    if fr == [] then 1 else WeightProduct(fr[..|fr| - 1]) * Weight(fr[|fr| - 1])
  }

  /** The product over the first k fractions, times the weight of the next one. */
  lemma WeightProductSnoc(s: seq<Frac>)
    requires s != []
    ensures WeightProduct(s) == WeightProduct(s[..|s| - 1]) * Weight(s[|s| - 1])
  {
  }

  lemma {:induction false} WeightProductAppend(a: seq<Frac>, b: seq<Frac>)
    ensures WeightProduct(a + b) == WeightProduct(a) * WeightProduct(b)
    decreases |b|
  {
    if b == [] {
      assert a + b == a;
    } else {
      var init, last := b[..|b| - 1], b[|b| - 1];
      AppendInit(a, b);
      WeightProductAppend(a, init);
      WeightProductSnoc(a + b);
      WeightProductSnoc(b);
      MulAssoc(WeightProduct(a), WeightProduct(init), Weight(last));
    }
  }

  lemma AppendInit<T>(a: seq<T>, b: seq<T>)
    requires b != []
    ensures (a + b)[..|a + b| - 1] == a + b[..|b| - 1]
    ensures (a + b)[|a + b| - 1] == b[|b| - 1]
  {
  }

  lemma MulAssoc(x: int, y: int, z: int)
    ensures (x * y) * z == x * (y * z)
  {
  }

  lemma WeightProductSingle(f: Frac)
    ensures WeightProduct([f]) == Weight(f)
  {
    assert [f][..0] == [];
  }

  lemma Rearrange(a: int, b: int, c: int, x: int, y: int)
    ensures (((a * x) * b) * y) * c == (((a * b) * c) * x) * y
  {
    assert (a * x) * b == (a * b) * x;
    assert ((a * b) * x) * y == (a * b) * (x * y);
    assert ((a * b) * (x * y)) * c == ((a * b) * c) * (x * y);
  }

  lemma WeightProductRest(fr: seq<Frac>, i: nat, j: nat)
    requires i < j < |fr|
    ensures WeightProduct(fr) == WeightProduct(Rest(fr, i, j)) * Weight(fr[i]) * Weight(fr[j])
  {
    var a, b, c := fr[..i], fr[i + 1..j], fr[j + 1..];
    SplitAround(fr, i, j);
    WeightProductAppend(a + [fr[i]] + b + [fr[j]], c);
    WeightProductAppend(a + [fr[i]] + b, [fr[j]]);
    WeightProductAppend(a + [fr[i]], b);
    WeightProductAppend(a, [fr[i]]);
    WeightProductAppend(a + b, c);
    WeightProductAppend(a, b);
    WeightProductSingle(fr[i]);
    WeightProductSingle(fr[j]);
    Rearrange(WeightProduct(a), WeightProduct(b), WeightProduct(c), Weight(fr[i]), Weight(fr[j]));
  }

  /** Every item's value has its fraction. */
  predicate Represented(items: seq<Item>, fr: seq<Frac>)
  {
    |fr| == |items| && forall k :: 0 <= k < |items| ==> Represents(fr[k], items[k].value)
  }

  /** The fractions after a move, kept in step with Combine. */
  function StepFracs(fr: seq<Frac>, m: Move): seq<Frac>
    requires Valid(m, |fr|)
  {
    var a, b := if m.swapped then fr[m.j] else fr[m.i], if m.swapped then fr[m.i] else fr[m.j];
    Rest(fr, m.i, m.j) + [FracOf(m.op, a, b)]
  }

  /** A move does not raise the weight product. */
  lemma StepWeight(fr: seq<Frac>, m: Move)
    requires Valid(m, |fr|) && fr[m.i].den >= 1 && fr[m.j].den >= 1
    ensures WeightProduct(StepFracs(fr, m)) <= WeightProduct(fr)
  {
    var a, b := if m.swapped then fr[m.j] else fr[m.i], if m.swapped then fr[m.i] else fr[m.j];
    var c := FracOf(m.op, a, b);
    var rest := Rest(fr, m.i, m.j);
    FracOfWeight(m.op, a, b);
    WeightProductRest(fr, m.i, m.j);
    WeightProductAppend(rest, [c]);
    WeightProductSingle(c);
    var p, wi, wj := WeightProduct(rest), Weight(fr[m.i]), Weight(fr[m.j]);
    assert Weight(a) * Weight(b) == wi * wj;
    MulMono(p, wi * wj, Weight(c));
    MulAssoc(p, wi, wj);
  }

  /** A move keeps every value represented and does not raise the weight product. */
  lemma StepSound(items: seq<Item>, fr: seq<Frac>, m: Move)
    requires Represented(items, fr) && Valid(m, |items|) && Combine(items, m).Some?
    ensures Represented(Combine(items, m).value, StepFracs(fr, m))
    ensures WeightProduct(StepFracs(fr, m)) <= WeightProduct(fr)
  {
    var next, nfr := Combine(items, m).value, StepFracs(fr, m);
    var n := |items|;
    var a, b := if m.swapped then fr[m.j] else fr[m.i], if m.swapped then fr[m.i] else fr[m.j];
    FracOfSound(m.op, a, b, Left(items, m).value, Right(items, m).value);
    forall k | 0 <= k < n - 1
      ensures Represents(nfr[k], next[k].value)
    {
      if k < n - 2 {
        assert next[k] == next[..n - 2][k];
        assert nfr[k] == Rest(fr, m.i, m.j)[k];
      }
    }
    StepWeight(fr, m);
  }

  /** The search can only reach targets below the weight product of the items. */
  lemma {:induction false} SearchBound(items: seq<Item>, target: real, fr: seq<Frac>)
    requires Represented(items, fr)
    ensures Search(items, target).Some? ==> Abs(target) < WeightProduct(fr) as real
    decreases |items|
  {
    if Search(items, target).Some? {
      if |items| == 1 {
        ValueBound(fr[0], items[0].value);
        assert fr == [fr[0]];
        WeightProductSingle(fr[0]);
      } else {
        SearchFirstHit(items, target);
        var m :| Valid(m, |items|) && Attempt(items, target, m) == Search(items, target);
        StepSound(items, fr, m);
        SearchBound(Combine(items, m).value, target, StepFracs(fr, m));
      }
    }
  }

  const OneToFour: seq<Frac> := [Frac(1, 1), Frac(2, 1), Frac(3, 1), Frac(4, 1)]

  /** Combining two positive whole numbers p and q gives weight at most max(p + q, pq) + 1. */
  lemma WholePairWeight(op: Op, p: int, q: int)
    requires p >= 1 && q >= 1
    ensures Weight(FracOf(op, Frac(p, 1), Frac(q, 1))) <= p + q + 1 ||
            Weight(FracOf(op, Frac(p, 1), Frac(q, 1))) <= p * q + 1
  {
  }

  lemma OneToFourWeight()
    ensures WeightProduct(OneToFour) == 120
  {
    var s := OneToFour;
    assert s[..3][..2][..1][..0] == [];
    WeightProductSnoc(s);
    WeightProductSnoc(s[..3]);
    WeightProductSnoc(s[..3][..2]);
    WeightProductSnoc(s[..3][..2][..1]);
  }

  /**
   * The arithmetic behind the first move on 1, 2, 3, 4: the two other
   * items weigh p together, and the new one weighs at most w.
   */
  lemma FirstMoveArithmetic(i: int, j: int, p: int, w: int)
    requires 0 <= i < j < 4 && p >= 0 && w >= 0
    requires p * (i + 2) * (j + 2) == 120
    requires w <= (i + 1) + (j + 1) + 1 || w <= (i + 1) * (j + 1) + 1
    ensures p * w <= 80
  {
    if i == 0 && j == 1 {
      assert p == 20;
    } else if i == 0 && j == 2 {
      assert p == 15;
    } else if i == 0 && j == 3 {
      assert p == 12;
    } else if i == 1 && j == 2 {
      assert p == 10;
    } else if i == 1 && j == 3 {
      assert p == 8;
    } else {
      assert p == 6;
    }
  }

  /** Whatever the first move on 1, 2, 3, 4, the weight product drops to at most 80. */
  lemma FirstMovesOfOneToFour(m: Move)
    requires Valid(m, 4)
    ensures WeightProduct(StepFracs(OneToFour, m)) <= 80
  {
    var fi, fj := OneToFour[m.i], OneToFour[m.j];
    assert fi == Frac(m.i + 1, 1) && fj == Frac(m.j + 1, 1);
    var a, b := if m.swapped then fj else fi, if m.swapped then fi else fj;
    var c := FracOf(m.op, a, b);
    var rest := Rest(OneToFour, m.i, m.j);
    WeightProductAppend(rest, [c]);
    WeightProductSingle(c);
    WeightProductRest(OneToFour, m.i, m.j);
    OneToFourWeight();
    WholePairWeight(m.op, a.num, b.num);
    assert a.num * b.num == (m.i + 1) * (m.j + 1);
    FirstMoveArithmetic(m.i, m.j, WeightProduct(rest), Weight(c));
  }

  /** No expression over 1, 2, 3, 4 is within the tolerance of 100. */
  lemma NoWayToHundred()
    ensures Solve([1.0, 2.0, 3.0, 4.0], 100.0).None?
  {
    var items := InitialItems([1.0, 2.0, 3.0, 4.0]);
    assert items == [Item(1.0, Lit(1.0)), Item(2.0, Lit(2.0)), Item(3.0, Lit(3.0)), Item(4.0, Lit(4.0))];
    assert Represented(items, OneToFour);
    SearchFirstHit(items, 100.0);
    forall m | Valid(m, 4)
      ensures Attempt(items, 100.0, m).None?
    {
      if Combine(items, m).Some? {
        StepSound(items, OneToFour, m);
        FirstMovesOfOneToFour(m);
        SearchBound(Combine(items, m).value, 100.0, StepFracs(OneToFour, m));
      }
    }
  }

  /** 1, 6, 8, 8 reach 18, as ((1 + 8) * (8 - 6)). */
  lemma EighteenFromOneSixEightEight()
    ensures Solve([1.0, 6.0, 8.0, 8.0], 18.0).Some?
  {
    var items := InitialItems([1.0, 6.0, 8.0, 8.0]);
    var plan := [Move(0, 2, Add, false), Move(0, 1, Sub, true), Move(0, 1, Mul, false)];
    assert Solves(items, 18.0, plan);
    assert Solvable(items, 18.0);
    SearchComplete(items, 18.0);
    assert Search(items, 18.0).Some?;
  }

  /** The values of the items, in order. */
  function Values(items: seq<Item>): seq<real>
  {
    seq(|items|, k requires 0 <= k < |items| => items[k].value)
  }

  /** A solving plan for the items after a move extends to one for the items before it. */
  lemma SolvesAfterMove(items: seq<Item>, target: real, m: Move, plan: seq<Move>)
    requires Valid(m, |items|) && Combine(items, m).Some?
    requires Solves(Combine(items, m).value, target, plan)
    ensures Solves(items, target, [m] + plan)
  {
    assert ([m] + plan)[1..] == plan;
  }

  /** The values after a move that cannot fail. */
  lemma MoveValues(items: seq<Item>, m: Move, before: seq<real>, after: seq<real>)
    requires Valid(m, |items|) && m.op != Div && Values(items) == before
    requires var x, y := if m.swapped then before[m.j] else before[m.i], if m.swapped then before[m.i] else before[m.j];
             after == Rest(before, m.i, m.j) + [Calculate(x, y, m.op).value]
    ensures Combine(items, m).Some? && Values(Combine(items, m).value) == after
  {
    var next := Combine(items, m).value;
    var n := |items|;
    assert before[m.i] == items[m.i].value && before[m.j] == items[m.j].value;
    forall k | 0 <= k < n - 1
      ensures next[k].value == after[k]
    {
      if k < n - 2 {
        assert next[k] == next[..n - 2][k];
        assert before[if k < m.i then k else if k < m.j - 1 then k + 1 else k + 2]
            == items[if k < m.i then k else if k < m.j - 1 then k + 1 else k + 2].value;
      }
    }
  }

  /** Items valued 13, 1, 6, 0 reach 13 by multiplying the zero into 6 and 1, then adding. */
  lemma ThirteenFromFourItems(s1: seq<Item>)
    requires Values(s1) == [13.0, 1.0, 6.0, 0.0]
    ensures Solves(s1, 13.0, [Move(2, 3, Mul, false), Move(1, 2, Mul, false), Move(0, 1, Add, false)])
  {
    var m2, m3, m4 := Move(2, 3, Mul, false), Move(1, 2, Mul, false), Move(0, 1, Add, false);
    MoveValues(s1, m2, [13.0, 1.0, 6.0, 0.0], [13.0, 1.0, 0.0]);
    var s2 := Combine(s1, m2).value;
    MoveValues(s2, m3, [13.0, 1.0, 0.0], [13.0, 0.0]);
    var s3 := Combine(s2, m3).value;
    MoveValues(s3, m4, [13.0, 0.0], [13.0]);
    var s4 := Combine(s3, m4).value;
    assert Solves(s4, 13.0, []) by {
      assert s4[0].value == Values(s4)[0];
    }
    SolvesAfterMove(s3, 13.0, m4, []);
    SolvesAfterMove(s2, 13.0, m3, [m4]);
    SolvesAfterMove(s1, 13.0, m2, [m3, m4]);
  }

  /** 13, 1, 6, 8, 8 reach 13, as (13 + (1 * (6 * (8 - 8)))). */
  lemma ThirteenFromFiveNumbers()
    ensures Solve([13.0, 1.0, 6.0, 8.0, 8.0], 13.0).Some?
  {
    var s0 := InitialItems([13.0, 1.0, 6.0, 8.0, 8.0]);
    var m1 := Move(3, 4, Sub, false);
    var tail := [Move(2, 3, Mul, false), Move(1, 2, Mul, false), Move(0, 1, Add, false)];
    assert Values(s0) == [13.0, 1.0, 6.0, 8.0, 8.0];
    MoveValues(s0, m1, [13.0, 1.0, 6.0, 8.0, 8.0], [13.0, 1.0, 6.0, 0.0]);
    ThirteenFromFourItems(Combine(s0, m1).value);
    SolvesAfterMove(s0, 13.0, m1, tail);
    assert Solvable(s0, 13.0);
    SearchComplete(s0, 13.0);
    assert Search(s0, 13.0).Some?;
  }

  /** Items valued 16, 7, 9, 0 reach 16 by multiplying the zero into 9 and 7, then adding. */
  lemma SixteenFromFourItems(s3: seq<Item>)
    requires Values(s3) == [16.0, 7.0, 9.0, 0.0]
    ensures Solves(s3, 16.0, [Move(1, 3, Mul, false), Move(1, 2, Mul, false), Move(0, 1, Add, false)])
  {
    var m4, m5, m6 := Move(1, 3, Mul, false), Move(1, 2, Mul, false), Move(0, 1, Add, false);
    MoveValues(s3, m4, [16.0, 7.0, 9.0, 0.0], [16.0, 9.0, 0.0]);
    var s4 := Combine(s3, m4).value;
    MoveValues(s4, m5, [16.0, 9.0, 0.0], [16.0, 0.0]);
    var s5 := Combine(s4, m5).value;
    MoveValues(s5, m6, [16.0, 0.0], [16.0]);
    var s6 := Combine(s5, m6).value;
    assert Solves(s6, 16.0, []) by {
      assert s6[0].value == Values(s6)[0];
    }
    SolvesAfterMove(s5, 16.0, m6, []);
    SolvesAfterMove(s4, 16.0, m5, [m6]);
    SolvesAfterMove(s3, 16.0, m4, [m5, m6]);
  }

  /** Items valued 16, 1, 6, 7, 9, 0 reach 16 by multiplying the zero into every other number, then adding. */
  lemma SixteenFromSixItems(s1: seq<Item>)
    requires Values(s1) == [16.0, 1.0, 6.0, 7.0, 9.0, 0.0]
    ensures Solves(s1, 16.0, [Move(1, 5, Mul, false), Move(1, 4, Mul, false),
                              Move(1, 3, Mul, false), Move(1, 2, Mul, false), Move(0, 1, Add, false)])
  {
    var m2, m3 := Move(1, 5, Mul, false), Move(1, 4, Mul, false);
    var tail := [Move(1, 3, Mul, false), Move(1, 2, Mul, false), Move(0, 1, Add, false)];
    MoveValues(s1, m2, [16.0, 1.0, 6.0, 7.0, 9.0, 0.0], [16.0, 6.0, 7.0, 9.0, 0.0]);
    var s2 := Combine(s1, m2).value;
    MoveValues(s2, m3, [16.0, 6.0, 7.0, 9.0, 0.0], [16.0, 7.0, 9.0, 0.0]);
    var s3 := Combine(s2, m3).value;
    SixteenFromFourItems(s3);
    SolvesAfterMove(s2, 16.0, m3, tail);
    SolvesAfterMove(s1, 16.0, m2, [m3] + tail);
    assert [m2] + ([m3] + tail) == [m2, m3, tail[0], tail[1], tail[2]];
  }

  /** 16, 1, 2, 2, 6, 7, 9 reach 16: one zero, multiplied into every other number, added to 16. */
  lemma SixteenFromSevenNumbers()
    ensures Solve([16.0, 1.0, 2.0, 2.0, 6.0, 7.0, 9.0], 16.0).Some?
  {
    var s0 := InitialItems([16.0, 1.0, 2.0, 2.0, 6.0, 7.0, 9.0]);
    var m1 := Move(2, 3, Sub, false);
    var tail := [Move(1, 5, Mul, false), Move(1, 4, Mul, false),
                 Move(1, 3, Mul, false), Move(1, 2, Mul, false), Move(0, 1, Add, false)];
    assert Values(s0) == [16.0, 1.0, 2.0, 2.0, 6.0, 7.0, 9.0];
    MoveValues(s0, m1, [16.0, 1.0, 2.0, 2.0, 6.0, 7.0, 9.0], [16.0, 1.0, 6.0, 7.0, 9.0, 0.0]);
    SixteenFromSixItems(Combine(s0, m1).value);
    SolvesAfterMove(s0, 16.0, m1, tail);
    assert Solvable(s0, 16.0);
    SearchComplete(s0, 16.0);
    assert Search(s0, 16.0).Some?;
  }
}
