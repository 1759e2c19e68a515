/** Location bookkeeping: when token byte ranges are well formed and follow
    each other along the stream, every node a parse routine builds has
    `startByte <= endByte`, encloses the ranges of all its children, and lies
    within the bytes of the tokens the routine consumed. */
module Locations {
  import opened Tokens
  import opened Cursor
  import opened Ast
  import opened Grammar

  function StartAt(s: Stream, i: nat): nat
    requires i < |s.items|
  {
    LocOf(s.items[i]).startByte
  }

  function EndAt(s: Stream, i: nat): nat
    requires i < |s.items|
  {
    LocOf(s.items[i]).endByte
  }

  /** Every token range is well formed, and each ends before the next starts. */
  ghost predicate Ordered(s: Stream)
  {
    (forall i :: 0 <= i < |s.items| ==> StartAt(s, i) <= EndAt(s, i)) &&
    (forall i, j :: 0 <= i < j < |s.items| ==> EndAt(s, i) <= StartAt(s, j))
  }

  /** `e` lies within the bytes of tokens `p .. q-1`. */
  predicate Covered(e: Expression, s: Stream, p: nat, q: nat)
  {
    p < q <= |s.items| && StartAt(s, p) <= e.loc.startByte && e.loc.endByte <= EndAt(s, q - 1)
  }

  /** A successful parse from `p` built a well-located tree within the
      tokens it consumed. */
  predicate Located(s: Stream, p: nat, r: Parsed<Expression>)
  {
    r.Done? ==> WellLocated(r.result) && Covered(r.result, s, p, r.next)
  }

  /** Every item a loop from `p` added to `acc` is well located within the
      tokens the loop consumed. */
  predicate AllLocated(s: Stream, p: nat, acc: seq<Expression>, r: Parsed<seq<Expression>>)
    requires Extends(acc, r)
  {
    r.Done? ==> forall i :: |acc| <= i < |r.result| ==>
                  WellLocated(r.result[i]) && Covered(r.result[i], s, p, r.next)
  }

  lemma Before(s: Stream, i: nat, j: nat)
    requires Ordered(s) && i < j < |s.items|
    ensures EndAt(s, i) <= StartAt(s, j)
  {
  }

  lemma Span(s: Stream, i: nat, j: nat)
    requires Ordered(s) && i <= j < |s.items|
    ensures StartAt(s, i) <= EndAt(s, j)
  {
    if i < j {
      Before(s, i, j);
    }
  }

  lemma Monotone(s: Stream, i: nat, j: nat)
    requires Ordered(s) && i <= j < |s.items|
    ensures StartAt(s, i) <= StartAt(s, j) && EndAt(s, i) <= EndAt(s, j)
  {
    if i < j {
      Before(s, i, j);
    }
  }

  lemma Widen(e: Expression, s: Stream, p: nat, q: nat, p': nat, q': nat)
    requires Ordered(s) && Covered(e, s, p, q) && p' <= p && q <= q' <= |s.items|
    ensures Covered(e, s, p', q')
  {
    Monotone(s, p', p);
    Monotone(s, q - 1, q' - 1);
  }

  /** A token's own range, as a leaf node's location. */
  lemma Leaf(e: Expression, s: Stream, p: nat)
    requires Ordered(s) && p < |s.items| && e.loc == LocOf(s.items[p])
    requires !(e.Block? || e.Var? || e.Assign? || e.If? || e.BinaryOp? || e.FunCall? || e.Return?)
    ensures WellLocated(e) && Covered(e, s, p, p + 1)
  {
  }

  lemma {:induction false} ValueLocated(s: Stream, p: nat)
    requires Ordered(s)
    requires p < |s.items| && s.items[p].Lexed? && s.items[p].token.kind.Value?
    ensures Located(s, p, ParseValue(s, p))
  {
    var r := ParseValue(s, p);
    if r.Done? {
      var t := s.items[p].token;
      assert r.result.Ident? || r.result == Literal(t.kind.value.primitive, t.loc);
      Leaf(r.result, s, p);
    }
  }

  lemma {:induction false} ExpressionLocated(s: Stream, p: nat)
    requires Ordered(s) && p <= |s.items|
    ensures Located(s, p, ParseExpression(s, p))
    decreases |s.items| - p, 3
  {
    if p < |s.items| && s.items[p].Lexed? {
      var t := s.items[p].token;
      if t.kind == Kind.Var || t.kind == Kind.Const {
        VariableLocated(s, p);
      } else {
        WithPrecedenceLocated(s, p, BASE);
      }
    }
  }

  /** A block spans from its `{` to its `}`. */
  lemma {:induction false} ExprBlockLocated(s: Stream, p: nat)
    requires Ordered(s) && p <= |s.items|
    ensures Located(s, p, ParseExprBlock(s, p))
    ensures var r := ParseExprBlock(s, p);
            r.Done? ==> r.result.loc == Location(StartAt(s, p), EndAt(s, r.next - 1))
    decreases |s.items| - p, 0
  {
    var r := ParseExprBlock(s, p);
    if r.Done? {
      var body := BlockLoop(s, p + 1, []);
      BlockLoopLocated(s, p + 1, []);
      var xs := body.result;
      assert r.result == Block(xs, Location(StartAt(s, p), EndAt(s, body.next)));
      assert r.next == body.next + 1;
      Span(s, p, body.next);
      forall i | 0 <= i < |xs|
        ensures Encloses(r.result.loc, xs[i].loc) && WellLocated(xs[i])
      {
        Widen(xs[i], s, p + 1, body.next, p, r.next);
      }
    }
  }

  lemma {:induction false} BlockLoopLocated(s: Stream, p: nat, acc: seq<Expression>)
    requires Ordered(s) && p <= |s.items|
    ensures AllLocated(s, p, acc, BlockLoop(s, p, acc))
    decreases |s.items| - p, 4
  {
    var r := BlockLoop(s, p, acc);
    if r.Done? && p < |s.items| && s.items[p].Lexed? && s.items[p].token.kind != Op(RightBrace) {
      var e := ParseExpression(s, p);
      ExpressionLocated(s, p);
      var acc' := acc + [e.result];
      BlockLoopLocated(s, e.next, acc');
      assert r == BlockLoop(s, e.next, acc');
      assert r.result[..|acc'|] == acc';
      forall i | |acc| <= i < |r.result|
        ensures WellLocated(r.result[i]) && Covered(r.result[i], s, p, r.next)
      {
        if i == |acc| {
          assert r.result[i] == acc'[i] == e.result;
          Widen(e.result, s, p, e.next, p, r.next);
        } else {
          Widen(r.result[i], s, e.next, r.next, p, r.next);
        }
      }
    }
  }

  lemma {:induction false} InitializerLocated(s: Stream, p: nat)
    requires Ordered(s) && p <= |s.items|
    ensures Located(s, p, ParseInitializer(s, p))
    decreases |s.items| - p, 4
  {
    if p < |s.items| && s.items[p].Lexed? {
      if s.items[p].token.kind == Op(LeftBrace) {
        ExprBlockLocated(s, p);
      } else {
        ExpressionLocated(s, p);
      }
    }
  }

  /** A declaration spans from its keyword to the end of its initializer. */
  lemma {:induction false} VariableLocated(s: Stream, p: nat)
    requires Ordered(s) && p <= |s.items|
    ensures Located(s, p, ParseVariable(s, p))
    ensures var r := ParseVariable(s, p);
            r.Done? ==> r.result.loc == Location(StartAt(s, p), r.result.value.loc.endByte)
    decreases |s.items| - p, 0
  {
    var r := ParseVariable(s, p);
    if r.Done? {
      var typ := ParseTypeAnnotation(s, p + 2);
      var equal := Expect(s, typ.next, Op(Equal));
      var value := ParseInitializer(s, equal.next);
      InitializerLocated(s, equal.next);
      var e := r.result;
      assert e.value == value.result && e.typ == typ.result;
      assert r.next == value.next + 1;
      assert e.loc == Location(StartAt(s, p), value.result.loc.endByte);
      Widen(value.result, s, equal.next, value.next, p, r.next);
      if typ.result.Some? {
        var t := typ.result.value;
        assert t.loc == LocOf(s.items[p + 3]);
        Leaf(t, s, p + 3);
        Before(s, p + 3, equal.next);
        Monotone(s, p, p + 3);
      }
    }
  }

  /** A conditional spans from `if` to the end of its last branch, which is
      the last token it consumed. */
  lemma {:induction false} IfLocated(s: Stream, p: nat)
    requires Ordered(s) && p <= |s.items|
    ensures Located(s, p, ParseIfExpression(s, p))
    ensures var r := ParseIfExpression(s, p);
            r.Done? ==> r.result.loc == Location(StartAt(s, p), EndAt(s, r.next - 1))
    decreases |s.items| - p, 0
  {
    var r := ParseIfExpression(s, p);
    if r.Done? {
      var condition, body, falsy := IfParts(s, p);
      ExpressionLocated(s, p + 1);
      ExprBlockLocated(s, condition.next);
      ElseLoopLocated(s, body.next, []);
      IfFromChain(s, p, r, condition, body, falsy);
    }
  }

  /** The location facts of a conditional result, from those of the parse
      results of its parts. */
  lemma IfFromChain(s: Stream, p: nat, r: Parsed<Expression>, condition: Parsed<Expression>,
                    body: Parsed<Expression>, falsy: Parsed<seq<Expression>>)
    requires Ordered(s) && p < |s.items|
    requires condition.Done? && Located(s, p + 1, condition)
    requires body.Done? && Located(s, condition.next, body) && body.result.loc.endByte == EndAt(s, body.next - 1)
    requires falsy.Done? && falsy.next <= |s.items| && ChainLocated(s, body.next, [], falsy)
    requires r.Done? && r.next == falsy.next
    requires r.result.If? && r.result.condition == condition.result && r.result.truthy == body.result
             && r.result.falsy == falsy.result
    requires r.result.loc.startByte == StartAt(s, p)
    requires |falsy.result| == 0 ==> r.result.loc.endByte == body.result.loc.endByte
    requires |falsy.result| > 0 ==> r.result.loc.endByte == falsy.result[|falsy.result| - 1].loc.endByte
    ensures Located(s, p, r) && r.result.loc == Location(StartAt(s, p), EndAt(s, r.next - 1))
  {
    IfFromParts(s, p, r.result, condition.result, condition.next, body.result, body.next, falsy.result, falsy.next);
  }

  /** The pieces a successful conditional is built from. */
  lemma IfParts(s: Stream, p: nat)
    returns (condition: Parsed<Expression>, body: Parsed<Expression>, falsy: Parsed<seq<Expression>>)
    requires p <= |s.items| && ParseIfExpression(s, p).Done?
    ensures p < |s.items| && condition == ParseExpression(s, p + 1) && condition.Done?
    ensures body == ParseExprBlock(s, condition.next) && body.Done?
    ensures falsy == ElseLoop(s, body.next, []) && falsy.Done?
    ensures var e := ParseIfExpression(s, p).result;
            e.If? && e.condition == condition.result && e.truthy == body.result && e.falsy == falsy.result
    ensures var e := ParseIfExpression(s, p).result;
            e.loc.startByte == StartAt(s, p) &&
            (|falsy.result| == 0 ==> e.loc.endByte == body.result.loc.endByte) &&
            (|falsy.result| > 0 ==> e.loc.endByte == falsy.result[|falsy.result| - 1].loc.endByte)
    ensures ParseIfExpression(s, p).next == falsy.next
  {
    condition := ParseExpression(s, p + 1);
    body := ParseExprBlock(s, condition.next);
    falsy := ElseLoop(s, body.next, []);
  }

  /** The location facts of a conditional node, from those of its parts. */
  lemma IfFromParts(s: Stream, p: nat, e: Expression, condition: Expression, cn: nat,
                    body: Expression, bn: nat, falsy: seq<Expression>, fn: nat)
    requires Ordered(s) && p < cn <= bn <= fn <= |s.items|
    requires WellLocated(condition) && Covered(condition, s, p + 1, cn)
    requires WellLocated(body) && Covered(body, s, cn, bn) && body.loc.endByte == EndAt(s, bn - 1)
    requires forall i :: 0 <= i < |falsy| ==> WellLocated(falsy[i]) && Covered(falsy[i], s, bn, fn)
    requires |falsy| == 0 ==> fn == bn
    requires |falsy| > 0 ==> falsy[|falsy| - 1].loc.endByte == EndAt(s, fn - 1)
    requires e.If? && e.condition == condition && e.truthy == body && e.falsy == falsy
    requires e.loc.startByte == StartAt(s, p)
    requires |falsy| == 0 ==> e.loc.endByte == body.loc.endByte
    requires |falsy| > 0 ==> e.loc.endByte == falsy[|falsy| - 1].loc.endByte
    ensures WellLocated(e) && Covered(e, s, p, fn)
    ensures e.loc == Location(StartAt(s, p), EndAt(s, fn - 1))
  {
    Span(s, p, fn - 1);
    Widen(condition, s, p + 1, cn, p, fn);
    Widen(body, s, cn, bn, p, fn);
    ElementsWithin(s, falsy, 0, bn, fn, p, fn);
    IfNode(condition, body, falsy, e.loc);
  }

  lemma IfNode(condition: Expression, truthy: Expression, falsy: seq<Expression>, loc: Location)
    requires loc.startByte <= loc.endByte
    requires Encloses(loc, condition.loc) && WellLocated(condition)
    requires Encloses(loc, truthy.loc) && WellLocated(truthy)
    requires forall i :: 0 <= i < |falsy| ==> Encloses(loc, falsy[i].loc) && WellLocated(falsy[i])
    ensures WellLocated(Expression.If(condition, truthy, falsy, loc))
  {
    var e := Expression.If(condition, truthy, falsy, loc);
    assert Children(e) == [condition, truthy] + falsy;
  }

  /** Items from index `k` on, each well located within tokens `a .. b-1`,
      lie within the wider range `p .. q-1`. */
  lemma ElementsWithin(s: Stream, xs: seq<Expression>, k: nat, a: nat, b: nat, p: nat, q: nat)
    requires Ordered(s) && p <= a && b <= q <= |s.items|
    requires forall i :: k <= i < |xs| ==> WellLocated(xs[i]) && Covered(xs[i], s, a, b)
    ensures forall i :: k <= i < |xs| ==> WellLocated(xs[i]) && Covered(xs[i], s, p, q)
  {
    forall i | k <= i < |xs|
      ensures Covered(xs[i], s, p, q)
    {
      Widen(xs[i], s, a, b, p, q);
    }
  }

  /** What an `else` chain from `p` adds to `acc`: items well located within
      the tokens it consumed, the last of which ends with the last token. */
  predicate ChainLocated(s: Stream, p: nat, acc: seq<Expression>, r: Parsed<seq<Expression>>)
  {
    Extends(acc, r) && AllLocated(s, p, acc, r) &&
    (r.Done? ==> (|r.result| == |acc| ==> r.next == p) &&
                 (|r.result| > |acc| ==> 0 < r.next <= |s.items| &&
                                         r.result[|r.result| - 1].loc.endByte == EndAt(s, r.next - 1)))
  }

  lemma {:induction false} ElseLoopLocated(s: Stream, p: nat, acc: seq<Expression>)
    requires Ordered(s) && p <= |s.items|
    ensures ChainLocated(s, p, acc, ElseLoop(s, p, acc))
    decreases |s.items| - p, 1
  {
    var r := ElseLoop(s, p, acc);
    if r.Done? && p < |s.items| && s.items[p].Lexed? && s.items[p].token.kind == Kind.Else {
      var after := Peek(s, p + 1);
      if after.Next? && after.token.kind == Kind.If {
        ElseIfLocated(s, p, acc);
      } else {
        var elseBlock := ParseExprBlock(s, p + 1);
        ExprBlockLocated(s, p + 1);
        assert r == Done(acc + [elseBlock.result], elseBlock.next);
        Widen(elseBlock.result, s, p + 1, elseBlock.next, p, r.next);
      }
    }
  }

  /** The `else if` step of ElseLoopLocated. */
  lemma {:induction false} ElseIfLocated(s: Stream, p: nat, acc: seq<Expression>)
    requires Ordered(s) && p + 1 < |s.items|
    requires TokenAt(s, p, Kind.Else) && TokenAt(s, p + 1, Kind.If)
    ensures ChainLocated(s, p, acc, ElseLoop(s, p, acc))
    decreases |s.items| - p, 0
  {
    if ElseLoop(s, p, acc).Done? {
      var elseIf, rest := ElseIfParts(s, p, acc);
      IfLocatedAt(s, p + 1, elseIf);
      ElseLoopLocatedAt(s, elseIf.next, acc + [elseIf.result], rest);
      ChainStep(s, p, acc, elseIf, rest);
    }
  }

  /** IfLocated, stated of a given parse result. */
  lemma {:induction false} IfLocatedAt(s: Stream, p: nat, r: Parsed<Expression>)
    requires Ordered(s) && p <= |s.items| && r == ParseIfExpression(s, p)
    ensures Located(s, p, r) && (r.Done? ==> p < r.next && r.result.loc.endByte == EndAt(s, r.next - 1))
    decreases |s.items| - p, 1
  {
    IfLocated(s, p);
  }

  /** ElseLoopLocated, stated of a given parse result. */
  lemma {:induction false} ElseLoopLocatedAt(s: Stream, p: nat, acc: seq<Expression>, r: Parsed<seq<Expression>>)
    requires Ordered(s) && p <= |s.items| && r == ElseLoop(s, p, acc)
    ensures ChainLocated(s, p, acc, r)
    decreases |s.items| - p, 2
  {
    ElseLoopLocated(s, p, acc);
  }

  /** A successful `else if` step: the nested conditional from `p + 1`, and
      the rest of the chain after it. */
  lemma ElseIfParts(s: Stream, p: nat, acc: seq<Expression>)
    returns (elseIf: Parsed<Expression>, rest: Parsed<seq<Expression>>)
    requires p + 1 < |s.items| && TokenAt(s, p, Kind.Else) && TokenAt(s, p + 1, Kind.If)
    requires ElseLoop(s, p, acc).Done?
    ensures elseIf == ParseIfExpression(s, p + 1) && elseIf.Done?
    ensures rest == ElseLoop(s, elseIf.next, acc + [elseIf.result])
    ensures ElseLoop(s, p, acc) == rest
  {
    elseIf := ParseIfExpression(s, p + 1);
    rest := ElseLoop(s, elseIf.next, acc + [elseIf.result]);
  }

  /** The chain after an `else if`: the nested conditional, then what the
      rest of the chain added. */
  lemma ChainStep(s: Stream, p: nat, acc: seq<Expression>, elseIf: Parsed<Expression>,
                  rest: Parsed<seq<Expression>>)
    requires Ordered(s) && p + 1 < |s.items| && elseIf.Done? && rest.Done?
    requires Located(s, p + 1, elseIf)
    requires p + 1 < elseIf.next && elseIf.result.loc.endByte == EndAt(s, elseIf.next - 1)
    requires ChainLocated(s, elseIf.next, acc + [elseIf.result], rest)
    ensures ChainLocated(s, p, acc, rest)
  {
    var x, xn, xs, q := elseIf.result, elseIf.next, rest.result, rest.next;
    assert xs[|acc|] == xs[..|acc| + 1][|acc|] == (acc + [x])[|acc|] == x;
    assert xs[..|acc|] == xs[..|acc| + 1][..|acc|] == (acc + [x])[..|acc|] == acc;
    Widen(x, s, p + 1, xn, p, q);
    ElementsWithin(s, xs, |acc| + 1, xn, q, p, q);
  }

  lemma {:induction false} OperationLocated(s: Stream, p: nat)
    requires Ordered(s)
    requires p < |s.items| && s.items[p].Lexed? && s.items[p].token.kind.Op?
    ensures Located(s, p, ParseOperation(s, p))
    decreases |s.items| - p, 0
  {
    var r := ParseOperation(s, p);
    if r.Done? {
      var inner := ParseWithPrecedence(s, p + 1, BASE);
      WithPrecedenceLocated(s, p + 1, BASE);
      Widen(inner.result, s, p + 1, inner.next, p, r.next);
    }
  }

  /** A call spans from its callee to its `)`. */
  lemma {:induction false} FunCallLocated(s: Stream, p: nat, callee: Expression, p0: nat)
    requires Ordered(s) && p <= |s.items|
    requires WellLocated(callee) && Covered(callee, s, p0, p)
    ensures Located(s, p0, ParseFunCall(s, p, callee))
    decreases |s.items| - p, 0
  {
    var r := ParseFunCall(s, p, callee);
    if r.Done? {
      var arguments := ArgLoop(s, p + 1, []);
      ArgLoopLocated(s, p + 1, []);
      assert r.next == arguments.next + 1;
      assert r.result == FunCall(callee, arguments.result, Location(callee.loc.startByte, EndAt(s, arguments.next)));
      CallFromArguments(s, p, callee, p0, r, arguments);
    }
  }

  /** The location facts of a call result, from those of its argument loop. */
  lemma CallFromArguments(s: Stream, p: nat, callee: Expression, p0: nat,
                          r: Parsed<Expression>, arguments: Parsed<seq<Expression>>)
    requires Ordered(s) && p <= |s.items|
    requires WellLocated(callee) && Covered(callee, s, p0, p)
    requires arguments.Done? && Extends([], arguments) && AllLocated(s, p + 1, [], arguments)
    requires p + 1 <= arguments.next < |s.items|
    requires r.Done? && r.next == arguments.next + 1
    requires r.result == FunCall(callee, arguments.result, Location(callee.loc.startByte, EndAt(s, arguments.next)))
    ensures Located(s, p0, r)
  {
    var loc := r.result.loc;
    var args := arguments.result;
    Before(s, p - 1, p + 1);
    Monotone(s, p - 1, arguments.next);
    forall i | 0 <= i < |args|
      ensures Encloses(loc, args[i].loc) && WellLocated(args[i])
    {
      assert Covered(args[i], s, p + 1, arguments.next);
      Monotone(s, arguments.next - 1, arguments.next);
    }
    CallNode(callee, args, loc);
  }

  /** A call node whose children are well located inside its range is well
      located. */
  lemma CallNode(callee: Expression, arguments: seq<Expression>, loc: Location)
    requires loc.startByte <= loc.endByte
    requires Encloses(loc, callee.loc) && WellLocated(callee)
    requires forall i :: 0 <= i < |arguments| ==> Encloses(loc, arguments[i].loc) && WellLocated(arguments[i])
    ensures WellLocated(FunCall(callee, arguments, loc))
  {
    assert Children(FunCall(callee, arguments, loc)) == [callee] + arguments;
  }

  lemma {:induction false} ArgLoopLocated(s: Stream, p: nat, acc: seq<Expression>)
    requires Ordered(s) && p <= |s.items|
    ensures AllLocated(s, p, acc, ArgLoop(s, p, acc))
    decreases |s.items| - p, 4
  {
    var r := ArgLoop(s, p, acc);
    if r.Done? && p < |s.items| && s.items[p].Lexed? && s.items[p].token.kind != Op(RightParen) {
      if s.items[p].token.kind == Op(Comma) {
        ArgLoopLocated(s, p + 1, acc);
        forall i | |acc| <= i < |r.result|
          ensures WellLocated(r.result[i]) && Covered(r.result[i], s, p, r.next)
        {
          Widen(r.result[i], s, p + 1, r.next, p, r.next);
        }
      } else {
        var e := ParseExpression(s, p);
        ExpressionLocated(s, p);
        var acc' := acc + [e.result];
        ArgLoopLocated(s, e.next, acc');
        assert r == ArgLoop(s, e.next, acc');
        assert r.result[..|acc'|] == acc';
        forall i | |acc| <= i < |r.result|
          ensures WellLocated(r.result[i]) && Covered(r.result[i], s, p, r.next)
        {
          if i == |acc| {
            assert r.result[i] == acc'[i] == e.result;
            Widen(e.result, s, p, e.next, p, r.next);
          } else {
            Widen(r.result[i], s, e.next, r.next, p, r.next);
          }
        }
      }
    }
  }

  /** An assignment spans from its target to its `;`. */
  lemma {:induction false} AssignLocated(s: Stream, p: nat, target: Expression, p0: nat)
    requires Ordered(s) && p <= |s.items|
    requires WellLocated(target) && Covered(target, s, p0, p)
    ensures Located(s, p0, ParseAssign(s, p, target))
    decreases |s.items| - p, 0
  {
    var r := ParseAssign(s, p, target);
    if r.Done? {
      var value := ParseInitializer(s, p + 1);
      InitializerLocated(s, p + 1);
      assert r.next == value.next + 1;
      assert r.result.value == value.result;
      Before(s, p - 1, p + 1);
      Monotone(s, value.next - 1, value.next);
      Monotone(s, p - 1, value.next);
    }
  }

  /** A `return` spans from its keyword to its `;`. */
  lemma {:induction false} ReturnLocated(s: Stream, p: nat)
    requires Ordered(s) && p <= |s.items|
    ensures Located(s, p, ParseReturnExpression(s, p))
    decreases |s.items| - p, 0
  {
    var r := ParseReturnExpression(s, p);
    if r.Done? {
      var value := ParseExpression(s, p + 1);
      ExpressionLocated(s, p + 1);
      assert r.next == value.next + 1;
      assert r.result.value == value.result;
      Span(s, p, value.next);
      Widen(value.result, s, p + 1, value.next, p, r.next);
    }
  }

  lemma {:induction false} PrimaryLocated(s: Stream, p: nat)
    requires Ordered(s) && p <= |s.items|
    ensures Located(s, p, ParsePrimary(s, p))
    decreases |s.items| - p, 1
  {
    if p < |s.items| && s.items[p].Lexed? {
      match s.items[p].token.kind
      case Value(_) => ValueLocated(s, p);
      case Op(_) => OperationLocated(s, p);
      case Return => ReturnLocated(s, p);
      case If => IfLocated(s, p);
      case _ =>
    }
  }

  lemma {:induction false} WithPrecedenceLocated(s: Stream, p: nat, min: nat)
    requires Ordered(s) && p <= |s.items|
    ensures Located(s, p, ParseWithPrecedence(s, p, min))
    decreases |s.items| - p, 2
  {
    var left := ParsePrimary(s, p);
    PrimaryLocated(s, p);
    if left.Done? {
      var q := left.next;
      if left.result.Ident? && q < |s.items| && s.items[q].Lexed? && s.items[q].token.kind == Op(LeftParen) {
        FunCallLocated(s, q, left.result, p);
      } else if left.result.Ident? && q < |s.items| && s.items[q].Lexed? && s.items[q].token.kind == Op(Equal) {
        AssignLocated(s, q, left.result, p);
      } else {
        ClimbLoopLocated(s, q, min, left.result, p);
      }
    }
  }

  /** Each fold spans from the start of its left side to the end of its
      right side. */
  lemma {:induction false} ClimbLoopLocated(s: Stream, p: nat, min: nat, left: Expression, p0: nat)
    requires Ordered(s) && p <= |s.items|
    requires WellLocated(left) && Covered(left, s, p0, p)
    ensures Located(s, p0, ClimbLoop(s, p, min, left))
    decreases |s.items| - p, 0
  {
    if p < |s.items| && s.items[p].Lexed? {
      var t := s.items[p].token;
      if t.kind.Op? && IsBinaryOp(t.kind.operator) && GetPrecedence(t.kind.operator) > min {
        var right := ParseWithPrecedence(s, p + 1, GetPrecedence(t.kind.operator));
        WithPrecedenceLocated(s, p + 1, GetPrecedence(t.kind.operator));
        if right.Done? {
          var folded := BinaryOp(left, t.kind.operator, right.result,
                                 Location(left.loc.startByte, right.result.loc.endByte));
          Before(s, p - 1, p + 1);
          Monotone(s, p - 1, p + 1);
          assert WellLocated(folded);
          ClimbLoopLocated(s, right.next, min, folded, p0);
        }
      }
    }
  }

  /** The location invariant of the whole parser. */
  lemma ParsedTreeWellLocated(s: Stream)
    requires Ordered(s)
    ensures var r := ParseExpression(s, 0);
            r.Done? ==> WellLocated(r.result) && StartAt(s, 0) <= r.result.loc.startByte
                        && r.result.loc.endByte <= EndAt(s, r.next - 1)
  {
    ExpressionLocated(s, 0);
  }
}
