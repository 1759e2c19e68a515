/** Precedence climbing: when the operator loop stops, what it keeps, and the
    shape of the trees it builds over runs of single-token operands and binary
    operators. */
module Climbing {
  import opened Tokens
  import opened Cursor
  import opened Ast
  import opened Grammar

  /** Strengths rise from the additive operators through the multiplicative
      ones and `&&` to `==`, `!=` and `(`; every other operator is at the base
      strength. */
  lemma BindingOrder(op: Operator)
    ensures GetPrecedence(op) == SUM <==> op == Plus || op == Minus
    ensures GetPrecedence(op) == MUL <==> op == Star || op == Slash
    ensures GetPrecedence(op) == ASSOC <==> op == And
    ensures GetPrecedence(op) == APPLY <==> op == LeftParen || op == EqualEqual || op == NotEqual
    ensures GetPrecedence(op) == BASE <==>
              !(op in {Plus, Minus, Star, Slash, And, LeftParen, EqualEqual, NotEqual})
    ensures BASE < SUM < MUL < ASSOC < APPLY
  {
  }

  /** The look-ahead at `p` ends an operator loop running at strength `min`:
      end of input, a token that is not an operator, an operator that is not
      binary, or one that binds no more strongly than `min`. */
  predicate Halts(s: Stream, p: nat, min: nat)
    requires p <= |s.items|
  {
    p == |s.items| ||
    (s.items[p].Lexed? &&
     var k := s.items[p].token.kind;
     !(k.Op? && IsBinaryOp(k.operator) && GetPrecedence(k.operator) > min))
  }

  /** The loop hands back the accumulated left side untouched, without
      consuming anything, exactly when the look-ahead halts it. */
  lemma ClimbHalts(s: Stream, p: nat, min: nat, left: Expression)
    requires p <= |s.items|
    ensures ClimbLoop(s, p, min, left) == Done(left, p) <==> Halts(s, p, min)
  {
    if p < |s.items| && s.items[p].Lexed? {
      var k := s.items[p].token.kind;
      if k.Op? && IsBinaryOp(k.operator) && GetPrecedence(k.operator) > min {
        var right := ParseWithPrecedence(s, p + 1, GetPrecedence(k.operator));
        assert right.Done? ==> right.next > p + 1;
      }
    }
  }

  /** A look-ahead that halts a loop also halts every loop running at a
      higher strength. */
  lemma HaltsAbove(s: Stream, p: nat, min: nat, min': nat)
    requires p <= |s.items| && Halts(s, p, min) && min <= min'
    ensures Halts(s, p, min')
  {
  }

  /** `left` is `e` or the leftmost operand, at some depth, of `e`. */
  predicate OnLeftSpine(left: Expression, e: Expression)
  {
    e == left || (e.BinaryOp? && OnLeftSpine(left, e.lhs))
  }

  /** Folding only ever grows the tree above the accumulated left side: the
      result of the loop has `left` as its leftmost operand. */
  lemma {:induction false} ClimbKeepsLeft(s: Stream, p: nat, min: nat, left: Expression)
    requires p <= |s.items|
    ensures ClimbLoop(s, p, min, left).Done? ==> OnLeftSpine(left, ClimbLoop(s, p, min, left).result)
    decreases |s.items| - p
  {
    if p < |s.items| && s.items[p].Lexed? {
      var k := s.items[p].token.kind;
      if k.Op? && IsBinaryOp(k.operator) && GetPrecedence(k.operator) > min {
        var right := ParseWithPrecedence(s, p + 1, GetPrecedence(k.operator));
        if right.Done? {
          var folded := BinaryOp(left, k.operator, right.result,
                                 Location(left.loc.startByte, right.result.loc.endByte));
          ClimbKeepsLeft(s, right.next, min, folded);
          if ClimbLoop(s, right.next, min, folded).Done? {
            SpineGrows(left, folded, ClimbLoop(s, right.next, min, folded).result);
          }
        }
      }
    }
  }

  lemma {:induction false} SpineGrows(left: Expression, folded: Expression, e: Expression)
    requires folded.BinaryOp? && folded.lhs == left && OnLeftSpine(folded, e)
    ensures OnLeftSpine(left, e)
  {
    if e != folded {
      SpineGrows(left, folded, e.lhs);
    }
  }

  /** A single-token operand: a literal, or an identifier that is neither
      called nor assigned to, because no `(` or `=` follows it. */
  predicate IsAtom(s: Stream, i: nat)
  {
    i < |s.items| && s.items[i].Lexed? && s.items[i].token.kind.Value?
    && (s.items[i].token.kind.value.Primitive?
        || (s.items[i].token.kind.value.Ident? && s.items[i].token.kind.value.name != ""
            && !(i + 1 < |s.items| && s.items[i + 1].Lexed?
                 && s.items[i + 1].token.kind in {Op(LeftParen), Op(Equal)})))
  }

  /** The node a single-token operand parses to. */
  function Atom(s: Stream, i: nat): Expression
    requires IsAtom(s, i)
  {
    var t := s.items[i].token;
    if t.kind.value.Primitive? then Literal(t.kind.value.primitive, t.loc)
    else Expression.Ident(t.kind.value.name, t.loc)
  }

  /** An operator token. */
  predicate IsOp(s: Stream, i: nat)
  {
    i < |s.items| && s.items[i].Lexed? && s.items[i].token.kind.Op?
  }

  function OperatorAt(s: Stream, i: nat): Operator
    requires IsOp(s, i)
  {
    s.items[i].token.kind.operator
  }

  /** A binary operator token of strength `q`. */
  predicate OpAt(s: Stream, i: nat, q: nat)
  {
    IsOp(s, i) && IsBinaryOp(OperatorAt(s, i)) && GetPrecedence(OperatorAt(s, i)) == q
  }

  /** A single-token operand climbs straight into the operator loop. */
  lemma AtomClimbs(s: Stream, p: nat, min: nat)
    requires IsAtom(s, p)
    ensures ParseWithPrecedence(s, p, min) == ClimbLoop(s, p + 1, min, Atom(s, p))
  {
    assert ParsePrimary(s, p) == Done(Atom(s, p), p + 1);
  }

  /** `m` pairs of a binary operator of strength `q` and a single-token operand, from
      position `i`. */
  predicate Pairs(s: Stream, i: nat, m: nat, q: nat)
    decreases m
  {
    m == 0 || (OpAt(s, i, q) && IsAtom(s, i + 1) && Pairs(s, i + 2, m - 1, q))
  }

  /** `left` with the `m` pairs from `i` folded onto it one after the other,
      each pair taking the tree built so far as its left operand. */
  function FoldPairs(s: Stream, i: nat, m: nat, q: nat, left: Expression): Expression
    requires Pairs(s, i, m, q)
    decreases m
  {
    if m == 0 then left
    else
      var right := Atom(s, i + 1);
      FoldPairs(s, i + 2, m - 1, q,
                BinaryOp(left, OperatorAt(s, i), right, Location(left.loc.startByte, right.loc.endByte)))
  }

  /** The loop over pairs of strength `q` above `min`: the right side of each
      operator is climbed at strength `q`, stops at the next operator of the
      same strength, and is folded onto the left side. */
  lemma {:induction false} PairsFold(s: Stream, i: nat, m: nat, q: nat, min: nat, left: Expression)
    requires Pairs(s, i, m, q) && min < q
    requires i + 2 * m <= |s.items| && Halts(s, i + 2 * m, min)
    ensures ClimbLoop(s, i, min, left) == Done(FoldPairs(s, i, m, q, left), i + 2 * m)
    decreases m
  {
    if m == 0 {
      ClimbHalts(s, i, min, left);
    } else {
      var right := Atom(s, i + 1);
      var folded := BinaryOp(left, OperatorAt(s, i), right, Location(left.loc.startByte, right.loc.endByte));
      RightOperandOfPair(s, i, m, q, min);
      PairsFold(s, i + 2, m - 1, q, min, folded);
    }
  }

  /** The right operand of the first pair is its single token alone. */
  lemma RightOperandOfPair(s: Stream, i: nat, m: nat, q: nat, min: nat)
    requires Pairs(s, i, m, q) && m > 0 && min < q
    requires i + 2 * m <= |s.items| && Halts(s, i + 2 * m, min)
    ensures ParseWithPrecedence(s, i + 1, q) == Done(Atom(s, i + 1), i + 2)
  {
    AtomClimbs(s, i + 1, q);
    if m > 1 {
      assert OpAt(s, i + 2, q);
    } else {
      HaltsAbove(s, i + 2, min, q);
    }
    ClimbHalts(s, i + 2, q, Atom(s, i + 1));
  }

  /** Operators of equal strength fold to the left: `a - b - c - d` is
      `((a - b) - c) - d`. */
  lemma EqualStrengthFoldsLeft(s: Stream, p: nat, n: nat, q: nat, min: nat)
    requires IsAtom(s, p) && Pairs(s, p + 1, n, q) && min < q
    requires p + 1 + 2 * n <= |s.items| && Halts(s, p + 1 + 2 * n, min)
    ensures ParseWithPrecedence(s, p, min) == Done(FoldPairs(s, p + 1, n, q, Atom(s, p)), p + 1 + 2 * n)
  {
    AtomClimbs(s, p, min);
    PairsFold(s, p + 1, n, q, min, Atom(s, p));
  }

  /** `a op1 b op2 c` over single-token operands: a second operator that binds more
      strongly nests on the right, `a op1 (b op2 c)`; one that binds no more
      strongly folds, `(a op1 b) op2 c`; one that does not bind more strongly
      than `min` is left for the caller. */
  lemma TwoOperators(s: Stream, p: nat, min: nat)
    requires IsAtom(s, p) && IsAtom(s, p + 2) && IsAtom(s, p + 4)
    requires IsOp(s, p + 1) && IsBinaryOp(OperatorAt(s, p + 1))
    requires IsOp(s, p + 3) && IsBinaryOp(OperatorAt(s, p + 3))
    requires min < GetPrecedence(OperatorAt(s, p + 1))
    requires p + 5 <= |s.items| && Halts(s, p + 5, min)
    ensures var q1, q2 := GetPrecedence(OperatorAt(s, p + 1)), GetPrecedence(OperatorAt(s, p + 3));
            var a, b, c := Atom(s, p), Atom(s, p + 2), Atom(s, p + 4);
            var op1, op2 := OperatorAt(s, p + 1), OperatorAt(s, p + 3);
            ParseWithPrecedence(s, p, min) ==
              if q2 > q1 then
                Done(BinaryOp(a, op1, BinaryOp(b, op2, c, Location(b.loc.startByte, c.loc.endByte)),
                              Location(a.loc.startByte, c.loc.endByte)), p + 5)
              else if q2 > min then
                Done(BinaryOp(BinaryOp(a, op1, b, Location(a.loc.startByte, b.loc.endByte)), op2, c,
                              Location(a.loc.startByte, c.loc.endByte)), p + 5)
              else
                Done(BinaryOp(a, op1, b, Location(a.loc.startByte, b.loc.endByte)), p + 3)
  {
    var q1, q2 := GetPrecedence(OperatorAt(s, p + 1)), GetPrecedence(OperatorAt(s, p + 3));
    var a, b, c := Atom(s, p), Atom(s, p + 2), Atom(s, p + 4);
    var op1, op2 := OperatorAt(s, p + 1), OperatorAt(s, p + 3);
    AtomClimbs(s, p, min);
    AtomClimbs(s, p + 2, q1);
    if q2 > q1 {
      var inner := BinaryOp(b, op2, c, Location(b.loc.startByte, c.loc.endByte));
      AtomClimbs(s, p + 4, q2);
      HaltsAbove(s, p + 5, min, q2);
      ClimbHalts(s, p + 5, q2, c);
      assert ParseWithPrecedence(s, p + 4, q2) == Done(c, p + 5);
      HaltsAbove(s, p + 5, min, q1);
      ClimbHalts(s, p + 5, q1, inner);
      assert ClimbLoop(s, p + 3, q1, b) == Done(inner, p + 5);
      var whole := BinaryOp(a, op1, inner, Location(a.loc.startByte, c.loc.endByte));
      ClimbHalts(s, p + 5, min, whole);
    } else {
      ClimbHalts(s, p + 3, q1, b);
      assert ParseWithPrecedence(s, p + 2, q1) == Done(b, p + 3);
      var first := BinaryOp(a, op1, b, Location(a.loc.startByte, b.loc.endByte));
      assert ParseWithPrecedence(s, p, min) == ClimbLoop(s, p + 3, min, first);
      if q2 > min {
        AtomClimbs(s, p + 4, q2);
        HaltsAbove(s, p + 5, min, q2);
        ClimbHalts(s, p + 5, q2, c);
        var whole := BinaryOp(first, op2, c, Location(a.loc.startByte, c.loc.endByte));
        ClimbHalts(s, p + 5, min, whole);
      } else {
        ClimbHalts(s, p + 3, min, first);
      }
    }
  }

  /** Operators outside the strength table (`||`, `<`, `<=`, `>`, `>=`) never
      fold: at any strength the loop stops in front of them and leaves them
      for the caller. */
  lemma UntabledOperatorHalts(s: Stream, p: nat, min: nat, left: Expression)
    requires p < |s.items| && s.items[p].Lexed? && s.items[p].token.kind.Op?
    requires s.items[p].token.kind.operator in {Or, Less, LessEqual, Greater, GreaterEqual}
    ensures ClimbLoop(s, p, min, left) == Done(left, p)
  {
    ClimbHalts(s, p, min, left);
  }
}
