/** Shapes of declarations, blocks, `if` chains, calls and assignments, and
    the inputs each of them rejects. */
module Statements {
  import opened Tokens
  import opened Cursor
  import opened Ast
  import opened Grammar
  import Locations

  /** A non-empty identifier token. */
  predicate NameAt(s: Stream, i: nat)
  {
    i < |s.items| && s.items[i].Lexed? && s.items[i].token.kind.Value?
    && s.items[i].token.kind.value.Ident? && s.items[i].token.kind.value.name != ""
  }

  function LocAt(s: Stream, i: nat): Location
    requires i < |s.items|
  {
    LocOf(s.items[i])
  }

  // ---------------------------------------------------------------- blocks

  /** The body loop of a block ends at end of input or in front of `}`. */
  lemma {:induction false} BlockLoopEnds(s: Stream, p: nat, acc: seq<Expression>)
    requires p <= |s.items|
    ensures var r := BlockLoop(s, p, acc);
            r.Done? ==> r.next == |s.items| || TokenAt(s, r.next, Op(RightBrace))
    decreases |s.items| - p
  {
    if p < |s.items| && s.items[p].Lexed? && s.items[p].token.kind != Op(RightBrace) {
      var e := ParseExpression(s, p);
      if e.Done? {
        BlockLoopEnds(s, e.next, acc + [e.result]);
      }
    }
  }

  /** Once `{` is read and the body parses, the block succeeds exactly when
      the body stops in front of `}`; when the body runs to end of input the
      block fails with the end-of-input report. The block's items are the
      body's, and its span runs from `{` to `}`. */
  lemma BlockCloses(s: Stream, p: nat)
    requires TokenAt(s, p, Op(LeftBrace)) && BlockLoop(s, p + 1, []).Done?
    ensures var body := BlockLoop(s, p + 1, []);
            var r := ParseExprBlock(s, p);
            (r.Done? <==> body.next < |s.items|) &&
            (body.next == |s.items| ==> r == Failed(EndOfInput(s))) &&
            (r.Done? ==> r == Done(Block(body.result, Location(LocAt(s, p).startByte, LocAt(s, body.next).endByte)),
                                   body.next + 1))
  {
    BlockLoopEnds(s, p + 1, []);
  }

  /** `{}` is the empty block spanning both braces. */
  lemma EmptyBlock(s: Stream, p: nat)
    requires TokenAt(s, p, Op(LeftBrace)) && TokenAt(s, p + 1, Op(RightBrace))
    ensures ParseExprBlock(s, p) == Done(Block([], Location(LocAt(s, p).startByte, LocAt(s, p + 1).endByte)), p + 2)
  {
    assert BlockLoop(s, p + 1, []) == Done([], p + 1);
  }

  // ---------------------------------------------------------- declarations

  /** A declaration is `var` or `const`, a name, an optional `: type`, `=`,
      an initializer and `;`; the node spans the keyword to the end of the
      initializer, leaving out the `;`. */
  lemma DeclarationShape(s: Stream, p: nat)
    requires p <= |s.items| && ParseVariable(s, p).Done?
    ensures var r := ParseVariable(s, p);
            var d := r.result;
            (TokenAt(s, p, Kind.Var) || TokenAt(s, p, Kind.Const)) &&
            d.mutable == TokenAt(s, p, Kind.Var) &&
            NameAt(s, p + 1) && d.name == s.items[p + 1].token.kind.value.name &&
            var eq := if d.typ.Some? then p + 4 else p + 2;
            (d.typ.Some? ==> TokenAt(s, p + 2, Op(Colon)) && NameAt(s, p + 3) &&
                             d.typ.value == Expression.Ident(s.items[p + 3].token.kind.value.name, LocAt(s, p + 3))) &&
            TokenAt(s, eq, Op(Equal)) &&
            ParseInitializer(s, eq + 1) == Done(d.value, r.next - 1) &&
            TokenAt(s, r.next - 1, Op(SemiColon)) &&
            d.loc == Location(LocAt(s, p).startByte, d.value.loc.endByte)
  {
  }

  /** Without a type annotation, a declaration whose name is followed by a
      token other than `=` is rejected at that token. */
  lemma DeclarationNeedsEqual(s: Stream, p: nat)
    requires TokenAt(s, p, Kind.Var) || TokenAt(s, p, Kind.Const)
    requires NameAt(s, p + 1)
    requires p + 2 < |s.items| && s.items[p + 2].Lexed?
    requires s.items[p + 2].token.kind !in {Op(Colon), Op(Equal)}
    ensures ParseVariable(s, p) == Failed(Error(Diagnostic(UnexpectedToken, LocAt(s, p + 2))))
  {
    assert ParseTypeAnnotation(s, p + 2) == Done(None, p + 2);
  }

  /** A declaration whose initializer is not followed by `;` is rejected:
      at that token, or with the end-of-input report. This holds with or
      without a `: type` annotation. */
  lemma DeclarationNeedsSemicolon(s: Stream, p: nat)
    requires TokenAt(s, p, Kind.Var) || TokenAt(s, p, Kind.Const)
    requires NameAt(s, p + 1) && ParseTypeAnnotation(s, p + 2).Done?
    requires TokenAt(s, ParseTypeAnnotation(s, p + 2).next, Op(Equal))
    requires ParseInitializer(s, ParseTypeAnnotation(s, p + 2).next + 1).Done?
    requires !TokenAt(s, ParseInitializer(s, ParseTypeAnnotation(s, p + 2).next + 1).next, Op(SemiColon))
    ensures var q := ParseInitializer(s, ParseTypeAnnotation(s, p + 2).next + 1).next;
            ParseVariable(s, p) ==
              if q == |s.items| then Failed(EndOfInput(s))
              else if s.items[q].LexError? then Failed(Error(Diagnostic(Lexical, LocAt(s, q))))
              else Failed(Error(Diagnostic(UnexpectedToken, LocAt(s, q))))
  {
    var eq := ParseTypeAnnotation(s, p + 2).next;
    assert ParseIdentifier(s, p + 1).next == p + 2;
    assert Expect(s, eq, Op(Equal)).next == eq + 1;
  }

  // ------------------------------------------------------------ if chains

  /** The position after the block of an `if` at `p` that parsed. */
  function BodyEnd(s: Stream, p: nat): nat
    requires p <= |s.items| && ParseIfExpression(s, p).Done?
  {
    ParseExprBlock(s, ParseExpression(s, p + 1).next).next
  }

  /** Without `else` after its block, a conditional has no other branches,
      ends where its block ends and spans the keyword to the `}`. */
  lemma IfWithoutElse(s: Stream, p: nat)
    requires p <= |s.items| && ParseIfExpression(s, p).Done?
    requires !TokenAt(s, BodyEnd(s, p), Kind.Else)
    ensures var e := ParseIfExpression(s, p).result;
            e.falsy == [] && ParseIfExpression(s, p).next == BodyEnd(s, p) &&
            e.loc == Location(LocAt(s, p).startByte, e.truthy.loc.endByte)
  {
    var q := BodyEnd(s, p);
    assert q < |s.items| ==> s.items[q].Lexed?;
  }

  /** An `else` chain stops at end of input, in front of a token other than
      `else`, or right after a plain `else` block. */
  lemma {:induction false} ElseChainStops(s: Stream, p: nat, acc: seq<Expression>)
    requires p <= |s.items|
    ensures var r := ElseLoop(s, p, acc);
            r.Done? ==> r.next == |s.items| || !TokenAt(s, r.next, Kind.Else) ||
                        (|r.result| > |acc| && r.result[|r.result| - 1].Block?)
    decreases |s.items| - p
  {
    if TokenAt(s, p, Kind.Else) && p + 1 < |s.items| && TokenAt(s, p + 1, Kind.If) {
      var elseIf := ParseIfExpression(s, p + 1);
      if elseIf.Done? {
        ElseChainStops(s, elseIf.next, acc + [elseIf.result]);
      }
    }
  }

  /** `else if` hands the rest of the chain to the nested conditional: the
      outer chain records the nested conditional as one branch, and goes on
      after it only when the nested chain ended with a plain `else` block
      that is followed by yet another `else`. */
  lemma ElseIfTakesTheRest(s: Stream, p: nat)
    requires TokenAt(s, p, Kind.Else) && TokenAt(s, p + 1, Kind.If)
    requires ElseLoop(s, p, []).Done?
    ensures var nested := ParseIfExpression(s, p + 1);
            var r := ElseLoop(s, p, []);
            nested.Done? && r.result[0] == nested.result &&
            (|r.result| > 1 ==> |nested.result.falsy| > 0 &&
                                nested.result.falsy[|nested.result.falsy| - 1].Block? &&
                                TokenAt(s, nested.next, Kind.Else))
  {
    var nested, rest := Locations.ElseIfParts(s, p, []);
    assert [] + [nested.result] == [nested.result];
    assert rest.result[..1] == [nested.result];
    assert rest.result[0] == rest.result[..1][0];
    if |rest.result| > 1 {
      NestedEndsWithBlock(s, p + 1, nested, rest);
    }
  }

  /** When the outer chain goes on after a nested conditional, that
      conditional's own chain ended with a plain `else` block and an `else`
      follows it. */
  lemma NestedEndsWithBlock(s: Stream, q: nat, nested: Parsed<Expression>, rest: Parsed<seq<Expression>>)
    requires q <= |s.items| && nested == ParseIfExpression(s, q) && nested.Done?
    requires rest == ElseLoop(s, nested.next, [nested.result]) && rest.Done? && |rest.result| > 1
    ensures |nested.result.falsy| > 0 && nested.result.falsy[|nested.result.falsy| - 1].Block?
    ensures TokenAt(s, nested.next, Kind.Else)
  {
    ContinuesOnlyAtElse(s, nested.next, [nested.result]);
    var chain := NestedChain(s, q);
    ElseChainStops(s, BodyEnd(s, q), []);
  }

  /** A chain that adds a branch at `q` starts with `else` there. */
  lemma ContinuesOnlyAtElse(s: Stream, q: nat, acc: seq<Expression>)
    requires q <= |s.items| && ElseLoop(s, q, acc).Done? && |ElseLoop(s, q, acc).result| > |acc|
    ensures TokenAt(s, q, Kind.Else)
  {
  }

  /** The `else` chain of a conditional that parsed, and where it ends. */
  lemma NestedChain(s: Stream, q: nat) returns (chain: Parsed<seq<Expression>>)
    requires q <= |s.items| && ParseIfExpression(s, q).Done?
    ensures chain == ElseLoop(s, BodyEnd(s, q), []) && chain.Done?
    ensures ParseIfExpression(s, q).result.falsy == chain.result
    ensures ParseIfExpression(s, q).next == chain.next
  {
    chain := ElseLoop(s, BodyEnd(s, q), []);
  }

  // --------------------------------------------------- calls, assignments

  /** An identifier followed by `(` is a call, whatever the strength of the
      surrounding loop: the call is returned as is, so an operator after the
      `)` is left for the caller. */
  lemma CallEndsClimb(s: Stream, p: nat, min: nat)
    requires NameAt(s, p) && TokenAt(s, p + 1, Op(LeftParen))
    ensures ParseWithPrecedence(s, p, min) ==
              ParseFunCall(s, p + 1, Expression.Ident(s.items[p].token.kind.value.name, LocAt(s, p)))
  {
    assert ParsePrimary(s, p) == ParseIdentifier(s, p);
  }

  /** A parenthesised group is its inner expression, climbed from the base
      strength, unchanged: the node it yields is the inner tree itself, with
      the inner tree's location, which leaves out both parentheses. The group
      parses exactly when the inner expression does and a `)` follows it. */
  lemma GroupIsInner(s: Stream, p: nat)
    requires TokenAt(s, p, Op(LeftParen))
    ensures var inner := ParseWithPrecedence(s, p + 1, BASE);
            var r := ParseOperation(s, p);
            (r.Done? <==> inner.Done? && TokenAt(s, inner.next, Op(RightParen))) &&
            (r.Done? ==> r == Done(inner.result, inner.next + 1)) &&
            (inner.Failed? ==> r == inner)
  {
  }

  /** A call as the right operand of a binary operator is folded as soon as
      its `)` is read: the operator loop then goes on at the outer strength,
      so an operator after the call does not bind to the call first, however
      strongly it binds. */
  lemma CallOperandFoldsAtOnce(s: Stream, p: nat, min: nat, left: Expression)
    requires p < |s.items| && s.items[p].Lexed? && s.items[p].token.kind.Op?
    requires IsBinaryOp(s.items[p].token.kind.operator) && GetPrecedence(s.items[p].token.kind.operator) > min
    requires NameAt(s, p + 1) && TokenAt(s, p + 2, Op(LeftParen))
    requires ParseFunCall(s, p + 2, Expression.Ident(s.items[p + 1].token.kind.value.name, LocAt(s, p + 1))).Done?
    ensures var call := ParseFunCall(s, p + 2, Expression.Ident(s.items[p + 1].token.kind.value.name, LocAt(s, p + 1)));
            ClimbLoop(s, p, min, left) ==
              ClimbLoop(s, call.next, min,
                        BinaryOp(left, s.items[p].token.kind.operator, call.result,
                                 Location(left.loc.startByte, call.result.loc.endByte)))
  {
    CallEndsClimb(s, p + 1, GetPrecedence(s.items[p].token.kind.operator));
  }

  /** Likewise an identifier followed by `=` is an assignment. */
  lemma AssignEndsClimb(s: Stream, p: nat, min: nat)
    requires NameAt(s, p) && TokenAt(s, p + 1, Op(Equal))
    ensures ParseWithPrecedence(s, p, min) ==
              ParseAssign(s, p + 1, Expression.Ident(s.items[p].token.kind.value.name, LocAt(s, p)))
  {
    assert ParsePrimary(s, p) == ParseIdentifier(s, p);
  }

  /** The argument loop skips every comma, wherever it stands. */
  lemma {:induction false} CommasSkipped(s: Stream, p: nat, n: nat, acc: seq<Expression>)
    requires p + n <= |s.items|
    requires forall i :: p <= i < p + n ==> TokenAt(s, i, Op(Comma))
    ensures ArgLoop(s, p, acc) == ArgLoop(s, p + n, acc)
    decreases n
  {
    if n > 0 {
      assert TokenAt(s, p, Op(Comma));
      CommasSkipped(s, p + 1, n - 1, acc);
    }
  }

  /** Any other token starts an argument, which the loop appends. */
  lemma ArgumentStep(s: Stream, p: nat, acc: seq<Expression>)
    requires p < |s.items| && s.items[p].Lexed?
    requires s.items[p].token.kind !in {Op(RightParen), Op(Comma)}
    requires ParseExpression(s, p).Done?
    ensures var e := ParseExpression(s, p);
            ArgLoop(s, p, acc) == ArgLoop(s, e.next, acc + [e.result])
  {
  }

  /** The argument loop ends at end of input or in front of `)`. */
  lemma {:induction false} ArgLoopEnds(s: Stream, p: nat, acc: seq<Expression>)
    requires p <= |s.items|
    ensures var r := ArgLoop(s, p, acc);
            r.Done? ==> r.next == |s.items| || TokenAt(s, r.next, Op(RightParen))
    decreases |s.items| - p
  {
    if p < |s.items| && s.items[p].Lexed? && s.items[p].token.kind != Op(RightParen) {
      if s.items[p].token.kind == Op(Comma) {
        ArgLoopEnds(s, p + 1, acc);
      } else {
        var e := ParseExpression(s, p);
        if e.Done? {
          ArgLoopEnds(s, e.next, acc + [e.result]);
        }
      }
    }
  }

  /** A call spans its callee to the `)`, holds the arguments of the loop
      between the parentheses, and fails with the end-of-input report when
      that loop runs to end of input. */
  lemma CallShape(s: Stream, p: nat, callee: Expression)
    requires TokenAt(s, p, Op(LeftParen)) && ArgLoop(s, p + 1, []).Done?
    ensures var args := ArgLoop(s, p + 1, []);
            var r := ParseFunCall(s, p, callee);
            (args.next == |s.items| ==> r == Failed(EndOfInput(s))) &&
            (args.next < |s.items| ==>
               r == Done(FunCall(callee, args.result, Location(callee.loc.startByte, LocAt(s, args.next).endByte)),
                         args.next + 1))
  {
    ArgLoopEnds(s, p + 1, []);
  }

  /** An assignment spans its target to the `;`. */
  lemma AssignShape(s: Stream, p: nat, target: Expression)
    requires p <= |s.items| && ParseAssign(s, p, target).Done?
    ensures var r := ParseAssign(s, p, target);
            TokenAt(s, p, Op(Equal)) &&
            ParseInitializer(s, p + 1) == Done(r.result.value, r.next - 1) &&
            r.result.loc == Location(target.loc.startByte, LocAt(s, r.next - 1).endByte)
  {
  }

  /** A return spans its keyword to the `;`. */
  lemma ReturnShape(s: Stream, p: nat)
    requires p <= |s.items| && ParseReturnExpression(s, p).Done?
    ensures var r := ParseReturnExpression(s, p);
            ParseExpression(s, p + 1) == Done(r.result.value, r.next - 1) &&
            r.result.loc == Location(LocAt(s, p).startByte, LocAt(s, r.next - 1).endByte)
  {
  }
}
