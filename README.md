# Make-a-number puzzle solvers, modelled in Dafny

The repository solves the "make a target number" puzzle in two independent ways.

- `solveMake10` (src/solver.ts) is the fixed-arity solver. It takes exactly four numbers. It tries every ordering of them, every triple of operators from `+ - * /`, and four fixed bracket patterns, and it returns the first combination whose value lies within 1e-10 of the target.
- `solveNumbers` (src/index.ts) is the general solver. It repeatedly picks two of the remaining items and combines them with an operator; for `-` and `/` it also tries the swapped order. It drops any branch that divides by zero, and it accepts a single remaining item that lies within 1e-6 of the target.

The model has five modules:

- `Arith` (arith.dfy) holds the operator type, the operator table and `calculate`. It also holds expression trees (`Term`) with their evaluation (`Eval`). A division by zero is `None`: `calculate` throws and `evaluateExpression` catches it, and the `/` lambda of `solveNumbers` yields NaN, which is then discarded.
- `Generators` (generators.dfy) holds `generatePermutations` and `generateOperatorCombinations`. Each is a method proved equal to a specification function. The push/pop backtracking of the operator generator is a class with a shared `current` stack and a `result` sequence.
- `Make10` (make10.dfy) holds `evaluateExpression`, with one method per bracket pattern, and the triple loop of `solveMake10`.
- `NumberSearch` (number_search.dfy) holds `helper`, both as a recursive function (`Search`, one function per loop) and as the looping, early-returning method `Helper`. It proves:
  - the traversal order of the search;
  - soundness: the returned tree uses every input number exactly once and evaluates within the tolerance of the target;
  - completeness: there is an answer exactly when some sequence of moves reaches the target.
- `NumberSearchCases` (number_search_cases.dfy) proves the four cases of src/index.test.ts. The "no solution" case `[1,2,3,4] → 100` is proved by a potential argument:
  - every value is a fraction p/q;
  - the product over all items of |p| + q never grows when two items are combined;
  - after any first move on 1, 2, 3, 4 that product is at most 80;
  - a final value must be smaller than the product, so 100 is out of reach.

Numbers are Dafny `real`s. Both tolerances (1e-10 and 1e-6) are real comparisons. `Math.round` is `Floor(x + 1/2)`.

The formulas that `evaluateExpression` prints are not read with the usual operator precedence. Pattern 0 prints `a o1 b o2 c o3 d` but computes strictly left to right (src/solver.ts:76-83). Pattern 3 prints `a o1 b o2 (c o3 d)` but computes `a o1 (b o2 (c o3 d))` (src/solver.ts:114-120). The model follows the code:
- `Shape` gives the value each pattern computes;
- `Formula` gives the tokens each pattern prints;
- no contract claims that the printed text evaluates to the result.

## Model

| member | source | states |
|---|---|---|
| Arith.Calculate | src/solver.ts:147-158 | Fails exactly for `/` with a zero divisor. Otherwise the result undoes the operation: (a+b)-b = a, (a-b)+b = a, (a/b)*b = a, and (a*b)/b = a for a non-zero b, while a*0 = 0. The ops table of solveNumbers (src/index.ts:10-15) means the same: `/` by zero gives no number (NaN), and every other application gives one. |
| Arith.Rank | src/solver.ts:34 | Every operator has a position in the table `+ - * /`, and that position holds the operator. |
| Arith.EvalFailsIffZeroDivision | src/solver.ts:134-137 | Evaluating an expression tree fails exactly when some division inside it has a divisor that evaluates to zero; those are the failures the catch turns into null. |
| Generators.Permutations | src/solver.ts:8-26 | There are n! orderings. |
| Generators.PermutationsAreRearrangements | src/solver.ts:15-22 | Every enumerated ordering has the input's length and multiset. |
| Generators.PermutationsGrouped | src/solver.ts:15-22 | Ordering k is s[k / (n-1)!] followed by ordering k mod (n-1)! of the rest, so the orderings are grouped by the chosen first index, ascending. |
| Generators.PermutationsComplete | src/solver.ts:8-26 | Every rearrangement of the input is among the orderings. |
| Generators.PermutationsFirstIsInput | src/solver.ts:15-22 | The first ordering generated is the input itself, because position 0 is chosen first at every level. |
| Generators.Remove | src/solver.ts:17 | `remaining` is one element shorter and, together with the removed element, has the input's multiset. |
| Generators.GeneratePermutations | src/solver.ts:8-26 | The loops and the recursive call produce exactly Permutations(numbers); an input of length at most one gives the one-element list holding the input itself. |
| Generators.Extend | src/solver.ts:37-48 | `generate(prefix, depth)` appends 4^depth sequences. |
| Generators.OperatorCombinationsAt | src/solver.ts:33-52 | There are 4^n sequences, and the k-th is the base-4 expansion of k over `+ - * /`, most significant first: lexicographic order with the first position varying slowest. |
| Generators.Digits | src/solver.ts:33-52 | A base-4 expansion of k < 4^n has length n. |
| Generators.DigitsIndex | src/solver.ts:33-52 | Every operator sequence is the expansion of some index below 4^n, so every sequence is generated. |
| Generators.DigitsZero | src/solver.ts:33-52 | The first operator sequence generated uses only `+`, the first operator of the table. |
| Generators.CombinationBuilder.constructor | src/solver.ts:35 | Starts with an empty stack and an empty result. |
| Generators.CombinationBuilder.Generate | src/solver.ts:37-48 | Push, recurse, pop: `current` is left as it was found, and `result` is extended by Extend(current, depth). |
| Generators.GenerateOperatorCombinations | src/solver.ts:33-52 | Returns 4^length sequences, the k-th being Digits(k, length); length 0 gives `[[]]`. |
| Make10.Snap | src/solver.ts:128-131 | The snapped result differs from the raw one by less than 1e-10, and when it differs it is an integer. When some integer lies within 1e-10 of the raw result, the snapped result is an integer (that one, since it is within 1e-10 too). |
| Make10.EvaluatedMeaning | src/solver.ts:61-138 | No expression exactly when the call is not 4 numbers, 3 operators and a pattern 0..3, or when the pattern divides by zero. Otherwise the formula is the one printed and the result is within 1e-10 of the pattern's value. |
| Make10.PatternsZeroAndOneAgree | src/solver.ts:76-97 | Patterns 0 and 1 compute the same value, fail together, and print different formulas. |
| Make10.LeftChainStuck | src/solver.ts:80-83 | Once a step of the left-to-right fold fails, the whole fold fails. |
| Make10.LeftToRight | src/solver.ts:76-84 | The loop of pattern 0 computes `((a o1 b) o2 c) o3 d` and prints `a o1 b o2 c o3 d`. |
| Make10.FirstPairGrouped | src/solver.ts:86-97 | Pattern 1 computes `((a o1 b) o2 c) o3 d` and prints `(a o1 b) o2 c o3 d`. |
| Make10.MiddlePairGrouped | src/solver.ts:99-110 | Pattern 2 computes `(a o1 (b o2 c)) o3 d` and prints `a o1 (b o2 c) o3 d`. |
| Make10.LastPairGrouped | src/solver.ts:112-122 | Pattern 3 computes `a o1 (b o2 (c o3 d))` and prints `a o1 b o2 (c o3 d)`. |
| Make10.EvaluateExpression | src/solver.ts:61-138 | The length guard, the pattern switch with its default, and the snap produce exactly Evaluated(numbers, operators, pattern). |
| Make10.FoundFirst | src/solver.ts:177-187 | A hit reached after every earlier candidate missed is the first hit in ordering, then operator triple, then pattern order. |
| Make10.FirstHitUsesRearrangement | src/solver.ts:166-193 | A hit implies the input has exactly four numbers, and the numbers returned are a rearrangement of the input. |
| Make10.NoHitAmongRearrangements | src/solver.ts:166-193 | When no enumerated candidate hits, no rearrangement of the input with any operator triple and pattern hits. |
| Make10.FirstCandidate | src/solver.ts:177-187 | When the input order with `+ + +` and pattern 0 hits, that candidate is the first hit, since nothing is tried before it. |
| Make10.OneToFourMakesTen | src/solver.ts:166-193 | For 1, 2, 3, 4 and target 10 the first candidate is the first hit. Its formula is `1 + 2 + 3 + 4` and its result is exactly 10, so solveMake10 returns that Solution with the numbers in input order. |
| Make10.SolveMake10 | src/solver.ts:166-193 | An input of length other than 4 gives null. An answer is within 1e-10 of the target and its numbers are a permutation of the input. An answer is exactly the first hit. Null means no ordering, operator triple and pattern reaches the target. |
| NumberSearch.Rest | src/index.ts:27 | The filter keeps n-2 items: the others, in their order. |
| NumberSearch.Combine | src/index.ts:28-44 | A move fails exactly for a division by a zero right operand. Otherwise the rest is kept in order and one combined item is appended, so the recursive call gets one item fewer; the new item holds the operator's value and the tree `(a op b)`. |
| NumberSearch.CombineKeepsLeaves | src/index.ts:27-41 | A move keeps the multiset of numbers used by the items. |
| NumberSearch.CombineKeepsConsistent | src/index.ts:30-41 | A move keeps every item's value equal to the value of its expression. |
| NumberSearch.ItemLeavesRest | src/index.ts:27 | The numbers of all items are those of the rest plus those of the two chosen items. |
| NumberSearch.TryOpsFirst | src/index.ts:28-44 | The operator loop returns the outcome of the first successful move of its window: `a op b` before `b op a`, and the swapped order only for `-` and `/`. |
| NumberSearch.TryPartnersFirst | src/index.ts:24-45 | The loop over j returns the first successful move with that i and a partner from j on. |
| NumberSearch.TryPairsFirst | src/index.ts:23-47 | The loop over i returns the first successful move with first position from i on. |
| NumberSearch.SearchFirstHit | src/index.ts:23-48 | With other than one item, helper returns null exactly when every move fails. Otherwise it returns what the first successful move (pairs ascending, then operators `+ - * /`, then swapped) returns. |
| NumberSearch.SearchSound | src/index.ts:19-49 | An answer evaluates to within 1e-6 of the target and uses exactly the items' numbers, each once. |
| NumberSearch.SearchComplete | src/index.ts:19-49 | helper finds an answer exactly when some sequence of moves leaves one item within 1e-6 of the target. |
| NumberSearch.Helper | src/index.ts:19-49 | The nested loops with recursion and early return compute exactly Search(items, target). |
| NumberSearch.InitialItems | src/index.ts:51 | One item per number, each item's value equal to the value of its expression. |
| NumberSearch.InitialLeaves | src/index.ts:51 | The starting items use exactly the input numbers. |
| NumberSearch.SolveNumbers | src/index.ts:9-53 | An answer uses exactly the input multiset and evaluates within 1e-6 of the target. There is an answer exactly when the target is reachable. An empty input gives null, and a single number gives itself exactly when it is within 1e-6 of the target. |
| NumberSearchCases.FracOfSound | src/index.ts:10-15 | Each operator applied to fractions p/q gives a fraction of the result whose weight \|p\|+q is at most the product of the operands' weights. |
| NumberSearchCases.StepSound | src/index.ts:27-41 | One move keeps every item represented by a fraction and never increases the product of the weights. |
| NumberSearchCases.SearchBound | src/index.ts:19-49 | helper can only succeed for a target smaller in absolute value than the product of the items' weights. |
| NumberSearchCases.NoWayToHundred | src/index.test.ts:11 | `[1,2,3,4]` with target 100 gives null. |
| NumberSearchCases.EighteenFromOneSixEightEight | src/index.test.ts:8 | `[1,6,8,8]` with target 18 gives an answer. |
| NumberSearchCases.ThirteenFromFiveNumbers | src/index.test.ts:9 | `[13,1,6,8,8]` with target 13 gives an answer. |
| NumberSearchCases.SixteenFromSevenNumbers | src/index.test.ts:10 | `[16,1,2,2,6,7,9]` with target 16 gives an answer. |

The tests' check that the answer evaluates within 1e-6 of the target (src/index.test.ts:20-22) is covered for the returned expression tree by `NumberSearch.SolveNumbers` and `NumberSearch.SearchSound`, for every input. It is not covered for the printed text: see the last line of "## Left out".

## Left out

- The command-line wrapper (src/index.ts:56-70) is left out: argument parsing, console output and the process exit are I/O.
- IEEE-754 arithmetic is left out. Numbers are exact reals, so rounding error, overflow to Infinity, and NaN from anything other than a division by zero are not modelled.
- Decimal rendering of numbers is left out (`toString` and template literals). solveNumbers' answer is an expression tree, not its fully parenthesised text. evaluateExpression's formula is a token sequence: numbers, operator symbols and parentheses, in printed order.
- The default argument `target = 10` of solveMake10 is left out; callers pass the target.
- `generateOperatorCombinations` with a negative length is left out, because the length is a `nat`. Every call in the source passes 3.
- The `Unknown operator` throw of calculate is left out: the operator type has exactly four values, so it cannot happen.
- The formula left behind when a pattern throws part-way is left out. The source discards it by returning null, so `LeftToRight`, `FirstPairGrouped`, `MiddlePairGrouped` and `LastPairGrouped` promise their formula only when the value exists.
- src/types.ts is not part of this model as a file. Its `Operator`, `Expression` and `Solution` types are the datatypes `Arith.Op`, `Make10.Expression` and `Make10.Solution`.
- The `eval`-based checking in src/index.test.ts is not modelled. Its four cases are stated as lemmas about `NumberSearch.Solve`.
- Where a code comment and the code disagree on bracket pattern 3, the model follows the code. The comment at src/solver.ts:58 describes `a op b op (c op d)`, but lines 114-120 compute `a o1 (b o2 (c o3 d))`.
- `evaluateExpression` with a bracket pattern that is not an integer is left out: the pattern is an `int`. In the source a pattern such as 1.5 falls to the default case and gives null; every call in the source passes 0, 1, 2 or 3.
- The printed text of a solveNumbers answer may not parse as JavaScript, and the model does not capture this. When a negative input number is the right operand of `-`, the source prints for example `(5--3)` for 5 - (-3), and `--` reads as a decrement operator. The model returns the expression tree, whose value is right.
