/** Precedence climbing over whole chains: any run of binary operators over
    single-token operands parses to a tree that respects the strength table
    and reads back, in order, as the operands and operators it consumed. */
module Chains {
  import opened Tokens
  import opened Cursor
  import opened Ast
  import opened Grammar
  import opened Climbing

  /** The operator at `i` is binary and binds more strongly than `min`. */
  predicate BindsAbove(s: Stream, i: nat, min: nat)
  {
    IsOp(s, i) && IsBinaryOp(OperatorAt(s, i)) && GetPrecedence(OperatorAt(s, i)) > min
  }

  /** `n` pairs, from position `i`, of a binary operator binding more strongly
      than `min` and a single-token operand. */
  predicate Run(s: Stream, i: nat, n: nat, min: nat)
    decreases n
  {
    n == 0 || (BindsAbove(s, i, min) && IsAtom(s, i + 1) && Run(s, i + 2, n - 1, min))
  }

  /** One element of the in-order reading of an operator tree. */
  datatype Item = OperandItem(operand: Expression) | OperatorItem(operator: Operator)

  /** The in-order reading of a tree: operands and operators from left to
      right, with the nesting forgotten. */
  function Flatten(e: Expression): (r: seq<Item>)
    ensures |r| % 2 == 1
  {
    if e.BinaryOp? then Flatten(e.lhs) + [OperatorItem(e.operator)] + Flatten(e.rhs)
    else [OperandItem(e)]
  }

  /** The items of the `n` pairs from `i`, in stream order. */
  function Items(s: Stream, i: nat, n: nat): (r: seq<Item>)
    requires Run(s, i, n, BASE)
    ensures |r| == 2 * n
    decreases n
  {
    if n == 0 then []
    else [OperatorItem(OperatorAt(s, i)), OperandItem(Atom(s, i + 1))] + Items(s, i + 2, n - 1)
  }

  /** How strongly the root of a tree holds its operands: the strength of its
      operator, or above every strength for a tree that is not an operation. */
  function Strength(e: Expression): (r: nat)
    ensures e.BinaryOp? <==> r <= APPLY
  {
    if e.BinaryOp? then GetPrecedence(e.operator) else APPLY + 1
  }

  /** At every operation, the root of the left operand binds at least as
      strongly as the operation and the root of the right operand strictly
      more strongly: equal strengths nest to the left, weaker ones sit above
      stronger ones. */
  predicate PrecShaped(e: Expression)
  {
    e.BinaryOp? ==>
      Strength(e.lhs) >= GetPrecedence(e.operator) && Strength(e.rhs) > GetPrecedence(e.operator)
      && PrecShaped(e.lhs) && PrecShaped(e.rhs)
  }

  /** A run above some strength is a run above every lower strength. */
  lemma {:induction false} RunBelow(s: Stream, i: nat, n: nat, min: nat, min': nat)
    requires Run(s, i, n, min) && min' <= min
    ensures Run(s, i, n, min')
    decreases n
  {
    if n > 0 {
      RunBelow(s, i + 2, n - 1, min, min');
    }
  }

  /** A run goes on as a run after any number of its pairs. */
  lemma {:induction false} RunDrop(s: Stream, i: nat, n: nat, k: nat, min: nat)
    requires Run(s, i, n, min) && k <= n
    ensures Run(s, i + 2 * k, n - k, min)
    decreases k
  {
    if k > 0 {
      RunDrop(s, i + 2, n - 1, k - 1, min);
      assert i + 2 + 2 * (k - 1) == i + 2 * k;
    }
  }

  /** Concatenation of readings is associative. */
  lemma Associate(a: seq<Item>, b: seq<Item>, c: seq<Item>)
    ensures a + (b + c) == a + b + c
  {
  }

  /** The items of a run split after any number of its pairs. */
  lemma {:induction false} ItemsSplit(s: Stream, i: nat, n: nat, k: nat)
    requires Run(s, i, n, BASE) && k <= n
    ensures Run(s, i, k, BASE) && Run(s, i + 2 * k, n - k, BASE)
    ensures Items(s, i, n) == Items(s, i, k) + Items(s, i + 2 * k, n - k)
    decreases k
  {
    if k == 0 {
      assert Items(s, i, k) == [];
    } else {
      ItemsSplit(s, i + 2, n - 1, k - 1);
      assert i + 2 + 2 * (k - 1) == i + 2 * k;
      var head := [OperatorItem(OperatorAt(s, i)), OperandItem(Atom(s, i + 1))];
      var front, rest := Items(s, i + 2, k - 1), Items(s, i + 2 * k, n - k);
      calc {
        Items(s, i, n);
        head + Items(s, i + 2, n - 1);
        head + (front + rest);
        { Associate(head, front, rest); }
        head + front + rest;
        Items(s, i, k) + rest;
      }
    }
  }

  /** The first `k` of the `n` pairs from `i` bind more strongly than `q`,
      and the pair after them, if there is one, does not: the pairs that the
      right operand of an operator of strength `q` takes. */
  predicate Stops(s: Stream, i: nat, n: nat, k: nat, q: nat)
  {
    k <= n && Run(s, i, k, q) && (k < n ==> IsOp(s, i + 2 * k) && GetPrecedence(OperatorAt(s, i + 2 * k)) <= q)
  }

  /** Every run has a longest prefix above any strength. */
  lemma {:induction false} LongestAbove(s: Stream, i: nat, n: nat, q: nat) returns (k: nat)
    requires Run(s, i, n, BASE)
    ensures Stops(s, i, n, k, q)
    decreases n
  {
    if n == 0 || GetPrecedence(OperatorAt(s, i)) <= q {
      k := 0;
    } else {
      var k' := LongestAbove(s, i + 2, n - 1, q);
      k := k' + 1;
      assert i + 2 + 2 * k' == i + 2 * k;
    }
  }

  /** The right operand of the first operator of a run, climbed at that
      operator's strength, meets a look-ahead that halts it after the longest
      prefix of the remaining pairs above that strength. */
  lemma RightOperandStops(s: Stream, i: nat, n: nat, k: nat, min: nat)
    requires Run(s, i, n, min) && n > 0
    requires i + 2 * n <= |s.items| && Halts(s, i + 2 * n, min)
    requires Stops(s, i + 2, n - 1, k, GetPrecedence(OperatorAt(s, i)))
    ensures i + 2 + 2 * k <= |s.items| && Halts(s, i + 2 + 2 * k, GetPrecedence(OperatorAt(s, i)))
  {
    if k == n - 1 {
      HaltsAbove(s, i + 2 * n, min, GetPrecedence(OperatorAt(s, i)));
    }
  }

  /** One round of the loop: once the right operand of the look-ahead
      operator is parsed, the loop goes on from after it with the fold. */
  lemma LoopStep(s: Stream, i: nat, min: nat, left: Expression, right: Expression, j: nat)
    requires BindsAbove(s, i, min)
    requires ParseWithPrecedence(s, i + 1, GetPrecedence(OperatorAt(s, i))) == Done(right, j)
    ensures ClimbLoop(s, i, min, left) ==
              ClimbLoop(s, j, min, BinaryOp(left, OperatorAt(s, i), right,
                                            Location(left.loc.startByte, right.loc.endByte)))
  {
  }

  /** Folding a right operand that binds more strongly onto a left side that
      binds at least as strongly keeps the tree precedence-shaped. */
  lemma FoldShaped(left: Expression, op: Operator, right: Expression, loc: Location)
    requires PrecShaped(left) && PrecShaped(right)
    requires Strength(left) >= GetPrecedence(op) && Strength(right) > GetPrecedence(op)
    ensures PrecShaped(BinaryOp(left, op, right, loc))
    ensures Strength(BinaryOp(left, op, right, loc)) == GetPrecedence(op)
    ensures Flatten(BinaryOp(left, op, right, loc)) == Flatten(left) + [OperatorItem(op)] + Flatten(right)
  {
  }

  /** Regrouping the reading of a fold followed by the rest of a run. */
  lemma Regroup(a: seq<Item>, x: Item, y: Item, b: seq<Item>, c: seq<Item>)
    ensures a + [x] + ([y] + b) + c == a + ([x, y] + (b + c))
  {
    calc {
      a + [x] + ([y] + b) + c;
      a + ([x] + [y] + b + c);
      { assert [x] + [y] == [x, y]; }
      a + ([x, y] + (b + c));
    }
  }

  /** A parse that succeeded up to `next` with a precedence-shaped tree whose
      root binds more strongly than `min` and whose in-order reading is
      `reading`. */
  predicate Yields(r: Parsed<Expression>, next: nat, min: nat, reading: seq<Item>)
  {
    r.Done? && r.next == next && PrecShaped(r.result) && Strength(r.result) > min && Flatten(r.result) == reading
  }

  /** What the loop over a run needs: the run, a look-ahead after it that
      halts a loop at `min`, and a left side that binds at least as strongly
      as the run's first operator. */
  predicate LoopReady(s: Stream, i: nat, n: nat, min: nat, left: Expression)
  {
    Run(s, i, n, min) && i + 2 * n <= |s.items| && Halts(s, i + 2 * n, min)
    && PrecShaped(left) && Strength(left) > min
    && (n > 0 ==> Strength(left) >= GetPrecedence(OperatorAt(s, i)))
  }

  /** A parse that yields a reading yields any equal reading. */
  lemma YieldsAgain(r: Parsed<Expression>, next: nat, next': nat, min: nat, reading: seq<Item>, reading': seq<Item>)
    requires Yields(r, next, min, reading) && next == next' && reading == reading'
    ensures Yields(r, next', min, reading')
  {
  }

  /** The operator loop over a run that a look-ahead halting a loop at `min`
      follows: it consumes every pair and yields a precedence-shaped tree
      whose reading is that of the left side followed by the run's items,
      provided the left side binds at least as strongly as the first
      operator. */
  lemma {:induction false} LoopChain(s: Stream, i: nat, n: nat, min: nat, left: Expression)
      returns (r: Parsed<Expression>)
    requires LoopReady(s, i, n, min, left)
    ensures r == ClimbLoop(s, i, min, left)
    ensures Run(s, i, n, BASE)
    ensures Yields(r, i + 2 * n, min, Flatten(left) + Items(s, i, n))
    decreases n, 2
  {
    RunBelow(s, i, n, min, BASE);
    if n == 0 {
      ClimbHalts(s, i, min, left);
      r := ClimbLoop(s, i, min, left);
    } else {
      var k, right := LoopRound(s, i, n, min, left);
      r := LoopGoesOn(s, i, n, min, left, k, right);
    }
  }

  /** The first round of the loop over a run: it parses the right operand of
      the first operator and goes on from after it with the fold. */
  lemma {:induction false} LoopRound(s: Stream, i: nat, n: nat, min: nat, left: Expression)
      returns (k: nat, right: Expression)
    requires Run(s, i, n, min) && n > 0 && i + 2 * n <= |s.items| && Halts(s, i + 2 * n, min)
    ensures Stops(s, i + 2, n - 1, k, GetPrecedence(OperatorAt(s, i)))
    ensures ClimbLoop(s, i, min, left) ==
              ClimbLoop(s, i + 2 + 2 * k, min, BinaryOp(left, OperatorAt(s, i), right,
                                                        Location(left.loc.startByte, right.loc.endByte)))
    ensures PrecShaped(right) && (k == 0 ==> right == Atom(s, i + 1))
    ensures k > 0 ==> Strength(right) > GetPrecedence(OperatorAt(s, i))
    ensures Run(s, i + 2, k, BASE) && Flatten(right) == [OperandItem(Atom(s, i + 1))] + Items(s, i + 2, k)
    decreases n, 1
  {
    k, right := RightOperand(s, i, n, min);
    LoopStep(s, i, min, left, right, i + 2 + 2 * k);
  }

  /** The loop over a run after its first round: the fold of the first
      operator's right operand goes on as the left side of the loop over the
      rest of the run. */
  lemma {:induction false} LoopGoesOn(s: Stream, i: nat, n: nat, min: nat, left: Expression, k: nat, right: Expression)
      returns (r: Parsed<Expression>)
    requires Run(s, i, n, min) && n > 0 && i + 2 * n <= |s.items| && Halts(s, i + 2 * n, min)
    requires PrecShaped(left) && Strength(left) > min
    requires Strength(left) >= GetPrecedence(OperatorAt(s, i))
    requires Stops(s, i + 2, n - 1, k, GetPrecedence(OperatorAt(s, i)))
    requires PrecShaped(right) && (k == 0 ==> right == Atom(s, i + 1))
    requires k > 0 ==> Strength(right) > GetPrecedence(OperatorAt(s, i))
    requires Run(s, i + 2, k, BASE) && Flatten(right) == [OperandItem(Atom(s, i + 1))] + Items(s, i + 2, k)
    ensures r == ClimbLoop(s, i + 2 + 2 * k, min,
                           BinaryOp(left, OperatorAt(s, i), right, Location(left.loc.startByte, right.loc.endByte)))
    ensures Run(s, i, n, BASE)
    ensures Yields(r, i + 2 * n, min, Flatten(left) + Items(s, i, n))
    decreases n, 0
  {
    var j, loc := i + 2 + 2 * k, Location(left.loc.startByte, right.loc.endByte);
    var folded := BinaryOp(left, OperatorAt(s, i), right, loc);
    FoldRest(s, i, n, k, min, left, right, loc);
    r := LoopChain(s, j, n - 1 - k, min, folded);
    YieldsAgain(r, j + 2 * (n - 1 - k), i + 2 * n, min,
                Flatten(folded) + Items(s, j, n - 1 - k), Flatten(left) + Items(s, i, n));
  }

  /** The right operand of the first operator of a run, climbed at that
      operator's strength, is the chain of the longest prefix of the pairs
      after it that bind more strongly. */
  lemma {:induction false} RightOperand(s: Stream, i: nat, n: nat, min: nat)
      returns (k: nat, right: Expression)
    requires Run(s, i, n, min) && n > 0 && i + 2 * n <= |s.items| && Halts(s, i + 2 * n, min)
    ensures Stops(s, i + 2, n - 1, k, GetPrecedence(OperatorAt(s, i)))
    ensures ParseWithPrecedence(s, i + 1, GetPrecedence(OperatorAt(s, i))) == Done(right, i + 2 + 2 * k)
    ensures PrecShaped(right) && (k == 0 ==> right == Atom(s, i + 1))
    ensures k > 0 ==> Strength(right) > GetPrecedence(OperatorAt(s, i))
    ensures Run(s, i + 2, k, BASE) && Flatten(right) == [OperandItem(Atom(s, i + 1))] + Items(s, i + 2, k)
    decreases n, 0
  {
    var q := GetPrecedence(OperatorAt(s, i));
    RunBelow(s, i + 2, n - 1, min, BASE);
    k := LongestAbove(s, i + 2, n - 1, q);
    RightOperandStops(s, i, n, k, min);
    ClimbChain(s, i + 1, k, q);
    right := ParseWithPrecedence(s, i + 1, q).result;
  }

  /** The fold of one round, apart from the parse itself: it keeps the tree
      precedence-shaped, it binds at least as strongly as the operator after
      the right operand, and its reading followed by the rest of the run is
      the reading of the left side followed by the whole run. */
  lemma FoldRest(s: Stream, i: nat, n: nat, k: nat, min: nat, left: Expression, right: Expression, loc: Location)
    requires Run(s, i, n, min) && n > 0 && i + 2 * n <= |s.items| && Halts(s, i + 2 * n, min)
    requires Stops(s, i + 2, n - 1, k, GetPrecedence(OperatorAt(s, i)))
    requires PrecShaped(left) && Strength(left) > min
    requires Strength(left) >= GetPrecedence(OperatorAt(s, i))
    requires PrecShaped(right) && (k == 0 ==> right == Atom(s, i + 1))
    requires k > 0 ==> Strength(right) > GetPrecedence(OperatorAt(s, i))
    requires Run(s, i + 2, k, BASE) && Flatten(right) == [OperandItem(Atom(s, i + 1))] + Items(s, i + 2, k)
    ensures LoopReady(s, i + 2 + 2 * k, n - 1 - k, min, BinaryOp(left, OperatorAt(s, i), right, loc))
    ensures Run(s, i, n, BASE) && Run(s, i + 2 + 2 * k, n - 1 - k, BASE)
    ensures Flatten(BinaryOp(left, OperatorAt(s, i), right, loc)) + Items(s, i + 2 + 2 * k, n - 1 - k)
            == Flatten(left) + Items(s, i, n)
  {
    var op := OperatorAt(s, i);
    FoldShaped(left, op, right, loc);
    RunDrop(s, i + 2, n - 1, k, min);
    RunBelow(s, i, n, min, BASE);
    ReadingAfterFold(s, i, n, k, left, right, loc);
    assert i + 2 + 2 * k + 2 * (n - 1 - k) == i + 2 * n;
  }

  /** The reading of the fold followed by the rest of the run is the reading
      of the left side followed by the whole run. */
  lemma ReadingAfterFold(s: Stream, i: nat, n: nat, k: nat, left: Expression, right: Expression, loc: Location)
    requires Run(s, i, n, BASE) && n > 0 && k <= n - 1
    requires Run(s, i + 2, k, BASE) && Flatten(right) == [OperandItem(Atom(s, i + 1))] + Items(s, i + 2, k)
    ensures Run(s, i + 2 + 2 * k, n - 1 - k, BASE)
    ensures Flatten(BinaryOp(left, OperatorAt(s, i), right, loc)) + Items(s, i + 2 + 2 * k, n - 1 - k)
            == Flatten(left) + Items(s, i, n)
  {
    var op, atom := OperatorItem(OperatorAt(s, i)), OperandItem(Atom(s, i + 1));
    ItemsSplit(s, i + 2, n - 1, k);
    var a, c := Items(s, i + 2, k), Items(s, i + 2 + 2 * k, n - 1 - k);
    calc {
      Flatten(BinaryOp(left, OperatorAt(s, i), right, loc)) + c;
      Flatten(left) + [op] + ([atom] + a) + c;
      { Regroup(Flatten(left), op, atom, a, c); }
      Flatten(left) + ([op, atom] + (a + c));
      Flatten(left) + ([op, atom] + Items(s, i + 2, n - 1));
      Flatten(left) + Items(s, i, n);
    }
  }

  /** Any chain `a0 op1 a1 … opn an` of single-token operands whose operators
      all bind more strongly than `min`, followed by a look-ahead that halts
      a loop at `min`, parses whole into one precedence-shaped tree whose
      in-order reading is exactly the chain: stronger operators nest below
      weaker ones, operators of equal strength fold to the left, and no
      operand or operator is lost, duplicated or reordered. */
  lemma {:induction false} ClimbChain(s: Stream, p: nat, n: nat, min: nat)
    requires IsAtom(s, p) && Run(s, p + 1, n, min)
    requires p + 1 + 2 * n <= |s.items| && Halts(s, p + 1 + 2 * n, min)
    ensures var r := ParseWithPrecedence(s, p, min);
            r.Done? && r.next == p + 1 + 2 * n && PrecShaped(r.result)
            && (n == 0 ==> r.result == Atom(s, p))
            && (n > 0 ==> Strength(r.result) > min)
            && Run(s, p + 1, n, BASE)
            && Flatten(r.result) == [OperandItem(Atom(s, p))] + Items(s, p + 1, n)
    decreases n, 3
  {
    AtomClimbs(s, p, min);
    RunBelow(s, p + 1, n, min, BASE);
    if n == 0 {
      ClimbHalts(s, p + 1, min, Atom(s, p));
    } else {
      var r := LoopChain(s, p + 1, n, min, Atom(s, p));
    }
  }
}
