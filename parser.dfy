/** The parse routines of `rmb-parser/src/expression.rs`, each advancing the
    shared lexer in place. Each method is proved to return what the matching
    function of module Grammar computes from the lexer's position on entry,
    and to leave the lexer just after the tokens that function consumed. */
module Parser {
  import opened Tokens
  import opened Cursor
  import opened Ast
  import opened Lexing
  import G = Grammar

  method ParseExpression(lx: Lexer) returns (r: Outcome<Expression>)
    requires lx.Valid()
    modifies lx
    ensures lx.Valid() && Agrees(r, G.ParseExpression(lx.stream, old(lx.pos)), lx.pos)
    decreases |lx.stream.items| - lx.pos, 3
  {
    var peeked := lx.Peek();
    match peeked
    case Broken(d) => r := Err(Error(d));
    case AtEnd => r := Err(Panic(EmptyInput));
    case Next(t) =>
      if t.kind == Kind.Var || t.kind == Kind.Const {
        r := ParseVariable(lx);
      } else {
        r := ParseWithPrecedence(lx, G.BASE);
      }
  }

  method ParseIdentifier(lx: Lexer) returns (r: Outcome<Expression>)
    requires lx.Valid()
    modifies lx
    ensures lx.Valid() && Agrees(r, G.ParseIdentifier(lx.stream, old(lx.pos)), lx.pos)
  {
    var next := lx.Next();
    match next
    case AtEnd => r := Err(EndOfInput(lx.stream));
    case Broken(d) => r := Err(Error(d));
    case Next(t) =>
      var name := if t.kind.Value? && t.kind.value.Ident? then t.kind.value.name else "";
      if name == "" {
        r := Err(Error(Diagnostic(BadIdentifier, t.loc)));
      } else {
        r := Ok(Expression.Ident(name, t.loc));
      }
  }

  method ParseExprBlock(lx: Lexer) returns (r: Outcome<Expression>)
    requires lx.Valid()
    modifies lx
    ensures lx.Valid() && Agrees(r, G.ParseExprBlock(lx.stream, old(lx.pos)), lx.pos)
    decreases |lx.stream.items| - lx.pos, 0
  {
    var blockStart := lx.Expect(Op(LeftBrace));
    if blockStart.Err? {
      return Err(blockStart.failure);
    }
    var expressions: seq<Expression> := [];
    ghost var body := G.BlockLoop(lx.stream, lx.pos, []);
    while true
      invariant lx.Valid() && old(lx.pos) < lx.pos
      invariant G.BlockLoop(lx.stream, lx.pos, expressions) == body
      decreases |lx.stream.items| - lx.pos
    {
      var peeked := lx.Peek();
      if peeked.Broken? {
        return Err(Error(peeked.diag));
      }
      if peeked.AtEnd? || peeked.token.kind == Op(RightBrace) {
        break;
      }
      var expr := ParseExpression(lx);
      if expr.Err? {
        return expr;
      }
      expressions := expressions + [expr.value];
    }
    var blockEnd := lx.Expect(Op(RightBrace));
    if blockEnd.Err? {
      return Err(blockEnd.failure);
    }
    r := Ok(Block(expressions, Location(blockStart.value.loc.startByte, blockEnd.value.loc.endByte)));
  }

  method ParseVariable(lx: Lexer) returns (r: Outcome<Expression>)
    requires lx.Valid()
    modifies lx
    ensures lx.Valid() && Agrees(r, G.ParseVariable(lx.stream, old(lx.pos)), lx.pos)
    decreases |lx.stream.items| - lx.pos, 0
  {
    var keyword := lx.ExpectOneOf({Kind.Var, Kind.Const});
    if keyword.Err? {
      return Err(keyword.failure);
    }
    var mutable := keyword.value.kind == Kind.Var;
    var name := ParseIdentifier(lx);
    if name.Err? {
      return name;
    }
    var typ: Option<Expression> := None;
    var peeked := lx.Peek();
    if peeked.Broken? {
      return Err(Error(peeked.diag));
    }
    if peeked.Next? && peeked.token.kind == Op(Colon) {
      var colon := lx.Next();
      var annotation := ParseIdentifier(lx);
      if annotation.Err? {
        return annotation;
      }
      typ := Some(annotation.value);
    }
    var equal := lx.Expect(Op(Equal));
    if equal.Err? {
      return Err(equal.failure);
    }
    var value: Outcome<Expression>;
    var first := lx.Peek();
    match first {
      case Broken(d) => return Err(Error(d));
      case AtEnd => return Err(Panic(MissingInitializer));
      case Next(t) =>
        if t.kind == Op(LeftBrace) {
          value := ParseExprBlock(lx);
        } else {
          value := ParseExpression(lx);
        }
    }
    if value.Err? {
      return value;
    }
    var semi := lx.Expect(Op(SemiColon));
    if semi.Err? {
      return Err(semi.failure);
    }
    r := Ok(Expression.Var(mutable, typ, name.value.name, value.value,
                           Location(keyword.value.loc.startByte, value.value.loc.endByte)));
  }

  method ParseIfExpression(lx: Lexer) returns (r: Outcome<Expression>)
    requires lx.Valid()
    modifies lx
    ensures lx.Valid() && Agrees(r, G.ParseIfExpression(lx.stream, old(lx.pos)), lx.pos)
    decreases |lx.stream.items| - lx.pos, 0
  {
    var keyword := lx.Expect(Kind.If);
    if keyword.Err? {
      return Err(keyword.failure);
    }
    var condition := ParseExpression(lx);
    if condition.Err? {
      return condition;
    }
    var body := ParseExprBlock(lx);
    if body.Err? {
      return body;
    }
    var falsy := ParseElseChain(lx);
    if falsy.Err? {
      return Err(falsy.failure);
    }
    var falsyBranches := falsy.value;
    var end := if |falsyBranches| == 0 then body.value.loc.endByte
               else falsyBranches[|falsyBranches| - 1].loc.endByte;
    r := Ok(Expression.If(condition.value, body.value, falsyBranches,
                          Location(keyword.value.loc.startByte, end)));
  }

  /** The `else` chain of a conditional: `else if` appends a nested
      conditional and goes on, a plain `else` appends its block and stops. */
  method ParseElseChain(lx: Lexer) returns (r: Outcome<seq<Expression>>)
    requires lx.Valid()
    modifies lx
    ensures lx.Valid() && Agrees(r, G.ElseLoop(lx.stream, old(lx.pos), []), lx.pos)
    decreases |lx.stream.items| - lx.pos, 0
  {
    var falsyBranches: seq<Expression> := [];
    ghost var chain := G.ElseLoop(lx.stream, lx.pos, []);
    var done := false;
    while !done
      invariant lx.Valid() && old(lx.pos) <= lx.pos
      invariant !done ==> G.ElseLoop(lx.stream, lx.pos, falsyBranches) == chain
      invariant done ==> chain == Done(falsyBranches, lx.pos)
      decreases !done, |lx.stream.items| - lx.pos
    {
      var peeked := lx.Peek();
      if peeked.Broken? {
        return Err(Error(peeked.diag));
      }
      if peeked.AtEnd? || peeked.token.kind != Kind.Else {
        done := true;
      } else {
        var elseKeyword := lx.Next();
        var after := lx.Peek();
        if after.Broken? {
          return Err(Error(after.diag));
        }
        if after.Next? && after.token.kind == Kind.If {
          var elseIf := ParseIfExpression(lx);
          if elseIf.Err? {
            return Err(elseIf.failure);
          }
          falsyBranches := falsyBranches + [elseIf.value];
        } else {
          var elseBlock := ParseExprBlock(lx);
          if elseBlock.Err? {
            return Err(elseBlock.failure);
          }
          falsyBranches := falsyBranches + [elseBlock.value];
          done := true;
        }
      }
    }
    r := Ok(falsyBranches);
  }

  method ParseValue(lx: Lexer) returns (r: Outcome<Expression>)
    requires lx.Valid()
    requires lx.pos < |lx.stream.items| && lx.stream.items[lx.pos].Lexed?
    requires lx.stream.items[lx.pos].token.kind.Value?
    modifies lx
    ensures lx.Valid() && Agrees(r, G.ParseValue(lx.stream, old(lx.pos)), lx.pos)
  {
    var peeked := lx.Peek();
    match peeked.token.kind.value
    case Primitive(_) => r := ParsePrimitive(lx);
    case Ident(_) => r := ParseIdentifier(lx);
    case OtherValue(_) => r := Err(Panic(UnsupportedValue));
  }

  method ParseOperation(lx: Lexer) returns (r: Outcome<Expression>)
    requires lx.Valid()
    requires lx.pos < |lx.stream.items| && lx.stream.items[lx.pos].Lexed?
    requires lx.stream.items[lx.pos].token.kind.Op?
    modifies lx
    ensures lx.Valid() && Agrees(r, G.ParseOperation(lx.stream, old(lx.pos)), lx.pos)
    decreases |lx.stream.items| - lx.pos, 0
  {
    var peeked := lx.Peek();
    match peeked.token.kind.operator
    case LeftParen =>
      var open := lx.Next();
      var left := ParseWithPrecedence(lx, G.BASE);
      if left.Err? {
        return left;
      }
      var close := lx.Expect(Op(RightParen));
      if close.Err? {
        return Err(close.failure);
      }
      r := left;
    case _ => r := Err(Panic(UnsupportedOperator));
  }

  method ParseFunCall(lx: Lexer, ident: Expression) returns (r: Outcome<Expression>)
    requires lx.Valid()
    modifies lx
    ensures lx.Valid() && Agrees(r, G.ParseFunCall(lx.stream, old(lx.pos), ident), lx.pos)
    decreases |lx.stream.items| - lx.pos, 0
  {
    var open := lx.Expect(Op(LeftParen));
    if open.Err? {
      return Err(open.failure);
    }
    var arguments: seq<Expression> := [];
    ghost var collected := G.ArgLoop(lx.stream, lx.pos, []);
    while true
      invariant lx.Valid() && old(lx.pos) < lx.pos
      invariant G.ArgLoop(lx.stream, lx.pos, arguments) == collected
      decreases |lx.stream.items| - lx.pos
    {
      var peeked := lx.Peek();
      if peeked.Broken? {
        return Err(Error(peeked.diag));
      }
      if peeked.AtEnd? || peeked.token.kind == Op(RightParen) {
        break;
      }
      if peeked.token.kind == Op(Comma) {
        var comma := lx.Next();
        continue;
      }
      var arg := ParseExpression(lx);
      if arg.Err? {
        return arg;
      }
      arguments := arguments + [arg.value];
    }
    var closeParen := lx.Expect(Op(RightParen));
    if closeParen.Err? {
      return Err(closeParen.failure);
    }
    r := Ok(FunCall(ident, arguments, Location(ident.loc.startByte, closeParen.value.loc.endByte)));
  }

  method ParseAssign(lx: Lexer, left: Expression) returns (r: Outcome<Expression>)
    requires lx.Valid()
    modifies lx
    ensures lx.Valid() && Agrees(r, G.ParseAssign(lx.stream, old(lx.pos), left), lx.pos)
    decreases |lx.stream.items| - lx.pos, 0
  {
    var equal := lx.Expect(Op(Equal));
    if equal.Err? {
      return Err(equal.failure);
    }
    var value: Outcome<Expression>;
    var first := lx.Peek();
    match first {
      case Broken(d) => return Err(Error(d));
      case AtEnd => return Err(Panic(MissingInitializer));
      case Next(t) =>
        if t.kind == Op(LeftBrace) {
          value := ParseExprBlock(lx);
        } else {
          value := ParseExpression(lx);
        }
    }
    if value.Err? {
      return value;
    }
    var closing := lx.Expect(Op(SemiColon));
    if closing.Err? {
      return Err(closing.failure);
    }
    r := Ok(Assign(left, value.value, Location(left.loc.startByte, closing.value.loc.endByte)));
  }

  /** The primary expression an operand starts with, chosen by the kind of
      the look-ahead token. */
  method ParsePrimary(lx: Lexer) returns (r: Outcome<Expression>)
    requires lx.Valid()
    modifies lx
    ensures lx.Valid() && Agrees(r, G.ParsePrimary(lx.stream, old(lx.pos)), lx.pos)
    decreases |lx.stream.items| - lx.pos, 1
  {
    var peeked := lx.Peek();
    match peeked {
      case Broken(d) => return Err(Error(d));
      case AtEnd => return Err(Panic(MissingPrimary));
      case Next(t) =>
        match t.kind {
          case Value(_) => r := ParseValue(lx);
          case Op(_) => r := ParseOperation(lx);
          case Return => r := ParseReturnExpression(lx);
          case If => r := ParseIfExpression(lx);
          case _ => return Err(Panic(UnsupportedToken));
        }
    }
  }

  method ParseWithPrecedence(lx: Lexer, minPrecedence: nat) returns (r: Outcome<Expression>)
    requires lx.Valid()
    modifies lx
    ensures lx.Valid() && Agrees(r, G.ParseWithPrecedence(lx.stream, old(lx.pos), minPrecedence), lx.pos)
    decreases |lx.stream.items| - lx.pos, 2
  {
    var primary := ParsePrimary(lx);
    if primary.Err? {
      return primary;
    }
    var left := primary.value;

    if left.Ident? {
      var after := lx.Peek();
      if after.Broken? {
        return Err(Error(after.diag));
      }
      if after.Next? && after.token.kind == Op(LeftParen) {
        r := ParseFunCall(lx, left);
        return;
      }
      if after.Next? && after.token.kind == Op(Equal) {
        r := ParseAssign(lx, left);
        return;
      }
    }

    r := ClimbOperators(lx, minPrecedence, left);
  }

  /** The operator loop of precedence climbing: while the next token is a
      binary operator binding tighter than `minPrecedence`, parse its right
      side at that operator's precedence and fold it into `left`. */
  method ClimbOperators(lx: Lexer, minPrecedence: nat, left: Expression) returns (r: Outcome<Expression>)
    requires lx.Valid()
    modifies lx
    ensures lx.Valid() && Agrees(r, G.ClimbLoop(lx.stream, old(lx.pos), minPrecedence, left), lx.pos)
    decreases |lx.stream.items| - lx.pos, 0
  {
    var folded := left;
    ghost var climbed := G.ClimbLoop(lx.stream, lx.pos, minPrecedence, folded);
    while true
      invariant lx.Valid() && old(lx.pos) <= lx.pos
      invariant G.ClimbLoop(lx.stream, lx.pos, minPrecedence, folded) == climbed
      decreases |lx.stream.items| - lx.pos
    {
      var next := lx.Peek();
      if next.Broken? {
        return Err(Error(next.diag));
      }
      if next.AtEnd? || !next.token.kind.Op? || !IsBinaryOp(next.token.kind.operator) {
        return Ok(folded);
      }
      var operator := next.token.kind.operator;
      var precedence := G.GetPrecedence(operator);
      if precedence <= minPrecedence {
        break;
      }
      var consumed := lx.Next();
      var right := ParseWithPrecedence(lx, precedence);
      if right.Err? {
        return right;
      }
      folded := BinaryOp(folded, operator, right.value, Location(folded.loc.startByte, right.value.loc.endByte));
    }
    r := Ok(folded);
  }

  method ParseReturnExpression(lx: Lexer) returns (r: Outcome<Expression>)
    requires lx.Valid()
    modifies lx
    ensures lx.Valid() && Agrees(r, G.ParseReturnExpression(lx.stream, old(lx.pos)), lx.pos)
    decreases |lx.stream.items| - lx.pos, 0
  {
    var keyword := lx.Expect(Kind.Return);
    if keyword.Err? {
      return Err(keyword.failure);
    }
    var value := ParseExpression(lx);
    if value.Err? {
      return value;
    }
    var endingSemi := lx.Expect(Op(SemiColon));
    if endingSemi.Err? {
      return Err(endingSemi.failure);
    }
    r := Ok(Expression.Return(value.value, Location(keyword.value.loc.startByte, endingSemi.value.loc.endByte)));
  }

  method ParsePrimitive(lx: Lexer) returns (r: Outcome<Expression>)
    requires lx.Valid()
    requires lx.pos < |lx.stream.items| && lx.stream.items[lx.pos].Lexed?
    requires lx.stream.items[lx.pos].token.kind.Value? && lx.stream.items[lx.pos].token.kind.value.Primitive?
    modifies lx
    ensures lx.Valid() && Agrees(r, G.ParsePrimitive(lx.stream, old(lx.pos)), lx.pos)
  {
    var next := lx.Next();
    var t := next.token;
    r := Ok(G.Literal(t.kind.value.primitive, t.loc));
  }
}
