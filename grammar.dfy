/** The expression grammar of `rmb-parser/src/expression.rs` as pure
    functions that thread the cursor position through every routine.

    This is the reference definition the imperative parser (module Parser)
    is proved against. A parse routine takes the stream and the position of
    its first token and returns what it built together with the position
    after the last token it consumed. The routines are mutually recursive;
    they terminate on the measure (tokens left, rank), because
    `ParseExpression` and the loops hand the same position on to a routine of
    lower rank, and every routine of rank 0 consumes a token before it
    recurses.
 */
module Grammar {
  import opened Tokens
  import opened Cursor
  import opened Ast

  // Binding strengths of the binary operators.
  const BASE: nat := 0
  const SUM: nat := 3
  const MUL: nat := 4
  const ASSOC: nat := 5
  const APPLY: nat := 6

  /** The strength table: every strength is at most APPLY, and exactly the
      tabled operators bind above BASE. */
  function GetPrecedence(op: Operator): (r: nat)
    ensures r <= APPLY
    ensures r > BASE <==> op.Plus? || op.Minus? || op.Star? || op.Slash? || op.And?
                          || op.LeftParen? || op.EqualEqual? || op.NotEqual?
  {
    match op
    case Plus | Minus => SUM
    case Star | Slash => MUL
    case And => ASSOC
    case LeftParen | EqualEqual | NotEqual => APPLY
    case _ => BASE
  }

  /** The token at position `i` exists and has kind `k`. */
  predicate TokenAt(s: Stream, i: nat, k: Kind)
  {
    i < |s.items| && s.items[i].Lexed? && s.items[i].token.kind == k
  }

  /** A successful parse consumed at least one token. */
  predicate Advances<T>(s: Stream, p: nat, r: Parsed<T>)
  {
    r.Done? ==> p < r.next <= |s.items|
  }

  /** A successful loop consumed zero or more tokens. */
  predicate Stays<T>(s: Stream, p: nat, r: Parsed<T>)
  {
    r.Done? ==> p <= r.next <= |s.items|
  }

  /** A loop result extends the items collected before it. */
  predicate Extends(acc: seq<Expression>, r: Parsed<seq<Expression>>)
  {
    r.Done? ==> |acc| <= |r.result| && r.result[..|acc|] == acc
  }

  /** The literal node for a primitive token payload. */
  function Literal(prim: Primitive, loc: Location): Expression
  {
    match prim
    case Int(value, size) => IntLiteral(value, size, loc)
    case UInt(value, size) => UintLiteral(value, size, loc)
    case Float(bits, size) => FloatLiteral(bits, size, loc)
    case Bool(value) => Expression.Bool(value, loc)
  }

  /** An identifier: a `Value(Ident)` token with a non-empty name. An empty
      name is handled like a non-identifier token. */
  function ParseIdentifier(s: Stream, p: nat): (r: Parsed<Expression>)
    requires p <= |s.items|
    ensures r.Done? <==> p < |s.items| && s.items[p].Lexed? && s.items[p].token.kind.Value?
                         && s.items[p].token.kind.value.Ident? && s.items[p].token.kind.value.name != ""
    ensures r.Done? ==> r.next == p + 1 && r.result.Ident?
                        && s.items[p] == Lexed(Token(Value(Value.Ident(r.result.name)), r.result.loc))
    ensures p == |s.items| ==> r == Failed(EndOfInput(s))
    ensures p < |s.items| && s.items[p].Lexed? && !r.Done? ==>
              r == Failed(Error(Diagnostic(BadIdentifier, s.items[p].token.loc)))
  {
    match Peek(s, p)
    case AtEnd => Failed(EndOfInput(s))
    case Broken(d) => Failed(Error(d))
    case Next(t) =>
      var name := if t.kind.Value? && t.kind.value.Ident? then t.kind.value.name else "";
      if name == "" then Failed(Error(Diagnostic(BadIdentifier, t.loc)))
      else Done(Expression.Ident(name, t.loc), p + 1)
  }

  /** The token payload a literal node was built from; none for any other
      node. */
  function PayloadOf(e: Expression): Option<Primitive>
  {
    match e
    case IntLiteral(value, size, _) => Some(Int(value, size))
    case UintLiteral(value, size, _) => Some(UInt(value, size))
    case FloatLiteral(bits, size, _) => Some(Float(bits, size))
    case Bool(value, _) => Some(Primitive.Bool(value))
    case _ => None
  }

  /** A literal value token becomes the matching literal node. */
  function ParsePrimitive(s: Stream, p: nat): (r: Parsed<Expression>)
    requires p < |s.items| && s.items[p].Lexed?
    requires s.items[p].token.kind.Value? && s.items[p].token.kind.value.Primitive?
    ensures r.Done? && r.next == p + 1 && r.result.loc == s.items[p].token.loc
    ensures PayloadOf(r.result) == Some(s.items[p].token.kind.value.primitive)
  {
    var t := s.items[p].token;
    Done(Literal(t.kind.value.primitive, t.loc), p + 1)
  }

  /** A value token: a literal or an identifier. */
  function ParseValue(s: Stream, p: nat): (r: Parsed<Expression>)
    requires p < |s.items| && s.items[p].Lexed? && s.items[p].token.kind.Value?
    ensures r.Done? ==> r.next == p + 1 && r.result.loc == s.items[p].token.loc
    ensures match s.items[p].token.kind.value
            case Primitive(prim) => r.Done? && PayloadOf(r.result) == Some(prim)
            case Ident(name) =>
              if name == "" then r == Failed(Error(Diagnostic(BadIdentifier, s.items[p].token.loc)))
              else r == Done(Expression.Ident(name, s.items[p].token.loc), p + 1)
            case OtherValue(_) => r == Failed(Panic(UnsupportedValue))
  {
    match s.items[p].token.kind.value
    case Primitive(_) => ParsePrimitive(s, p)
    case Ident(_) => ParseIdentifier(s, p)
    case OtherValue(_) => Failed(Panic(UnsupportedValue))
  }

  /** Entry point: a declaration after `var`/`const`, otherwise an
      expression climbed from the base strength. */
  function ParseExpression(s: Stream, p: nat): (r: Parsed<Expression>)
    requires p <= |s.items|
    ensures Advances(s, p, r)
    ensures p == |s.items| ==> r == Failed(Panic(EmptyInput))
    decreases |s.items| - p, 3
  {
    match Peek(s, p)
    case Broken(d) => Failed(Error(d))
    case AtEnd => Failed(Panic(EmptyInput))
    case Next(t) =>
      if t.kind == Kind.Var || t.kind == Kind.Const then ParseVariable(s, p)
      else ParseWithPrecedence(s, p, BASE)
  }

  /** `{ expr* }`: expressions until `}` or end of input, then a required `}`. */
  function ParseExprBlock(s: Stream, p: nat): (r: Parsed<Expression>)
    requires p <= |s.items|
    ensures Advances(s, p, r)
    ensures r.Done? ==> r.result.Block? && TokenAt(s, p, Op(LeftBrace)) && TokenAt(s, r.next - 1, Op(RightBrace))
    decreases |s.items| - p, 0
  {
    var open := Expect(s, p, Op(LeftBrace));
    if open.Failed? then open.Propagate() else
    var body := BlockLoop(s, open.next, []);
    if body.Failed? then body.Propagate() else
    var close := Expect(s, body.next, Op(RightBrace));
    if close.Failed? then close.Propagate() else
    Done(Block(body.result, Location(open.result.loc.startByte, close.result.loc.endByte)), close.next)
  }

  /** The body loop of a block, with the expressions collected so far. */
  function BlockLoop(s: Stream, p: nat, acc: seq<Expression>): (r: Parsed<seq<Expression>>)
    requires p <= |s.items|
    ensures Stays(s, p, r) && Extends(acc, r)
    decreases |s.items| - p, 4
  {
    match Peek(s, p)
    case Broken(d) => Failed(Error(d))
    case AtEnd => Done(acc, p)
    case Next(t) =>
      if t.kind == Op(RightBrace) then Done(acc, p)
      else
        var e := ParseExpression(s, p);
        if e.Failed? then e.Propagate() else
        BlockLoop(s, e.next, acc + [e.result])
  }

  /** The optional `: ident` type annotation of a declaration. */
  function ParseTypeAnnotation(s: Stream, p: nat): (r: Parsed<Option<Expression>>)
    requires p <= |s.items|
    ensures r.Done? && r.result.None? <==> r == Done(None, p)
    ensures r.Done? && r.result.None? ==> !TokenAt(s, p, Op(Colon))
    ensures r.Done? && r.result.Some? ==> TokenAt(s, p, Op(Colon)) && r.next == p + 2 && r.result.value.Ident?
  {
    match Peek(s, p)
    case Broken(d) => Failed(Error(d))
    case AtEnd => Done(None, p)
    case Next(t) =>
      if t.kind == Op(Colon) then
        var typ := ParseIdentifier(s, p + 1);
        if typ.Failed? then typ.Propagate() else Done(Some(typ.result), typ.next)
      else Done(None, p)
  }

  /** The value after `=` in a declaration or an assignment: a block when it
      starts with `{`, otherwise an expression. */
  function ParseInitializer(s: Stream, p: nat): (r: Parsed<Expression>)
    requires p <= |s.items|
    ensures Advances(s, p, r)
    ensures p == |s.items| ==> r == Failed(Panic(MissingInitializer))
    decreases |s.items| - p, 4
  {
    match Peek(s, p)
    case Broken(d) => Failed(Error(d))
    case AtEnd => Failed(Panic(MissingInitializer))
    case Next(t) =>
      if t.kind == Op(LeftBrace) then ParseExprBlock(s, p) else ParseExpression(s, p)
  }

  /** `(var|const) ident (: ident)? = init ;` */
  function ParseVariable(s: Stream, p: nat): (r: Parsed<Expression>)
    requires p <= |s.items|
    ensures Advances(s, p, r)
    ensures r.Done? ==> r.result.Var? && TokenAt(s, r.next - 1, Op(SemiColon))
                        && r.result.mutable == TokenAt(s, p, Kind.Var)
                        && (TokenAt(s, p, Kind.Var) || TokenAt(s, p, Kind.Const))
    decreases |s.items| - p, 0
  {
    var keyword := ExpectOneOf(s, p, {Kind.Var, Kind.Const});
    if keyword.Failed? then keyword.Propagate() else
    var mutable := keyword.result.kind == Kind.Var;
    var name := ParseIdentifier(s, keyword.next);
    if name.Failed? then name.Propagate() else
    var typ := ParseTypeAnnotation(s, name.next);
    if typ.Failed? then typ.Propagate() else
    var equal := Expect(s, typ.next, Op(Equal));
    if equal.Failed? then equal.Propagate() else
    var value := ParseInitializer(s, equal.next);
    if value.Failed? then value else
    var semi := Expect(s, value.next, Op(SemiColon));
    if semi.Failed? then semi.Propagate() else
    Done(Expression.Var(mutable, typ.result, name.result.name, value.result,
             Location(keyword.result.loc.startByte, value.result.loc.endByte)),
         semi.next)
  }

  /** `if cond { … }` followed by its `else` chain. */
  function ParseIfExpression(s: Stream, p: nat): (r: Parsed<Expression>)
    requires p <= |s.items|
    ensures Advances(s, p, r)
    ensures r.Done? ==> r.result.If? && TokenAt(s, p, Kind.If)
    decreases |s.items| - p, 0
  {
    var keyword := Expect(s, p, Kind.If);
    if keyword.Failed? then keyword.Propagate() else
    var condition := ParseExpression(s, keyword.next);
    if condition.Failed? then condition else
    var body := ParseExprBlock(s, condition.next);
    if body.Failed? then body else
    var falsy := ElseLoop(s, body.next, []);
    if falsy.Failed? then falsy.Propagate() else
    var end := if |falsy.result| == 0 then body.result.loc.endByte
               else falsy.result[|falsy.result| - 1].loc.endByte;
    Done(Expression.If(condition.result, body.result, falsy.result,
                       Location(keyword.result.loc.startByte, end)),
         falsy.next)
  }

  /** The `else` chain: `else if` appends a nested conditional and goes on,
      a plain `else` appends its block and stops. */
  function ElseLoop(s: Stream, p: nat, acc: seq<Expression>): (r: Parsed<seq<Expression>>)
    requires p <= |s.items|
    ensures Stays(s, p, r) && Extends(acc, r)
    ensures r.Done? ==> forall i :: |acc| <= i < |r.result| ==>
                          r.result[i].If? || (r.result[i].Block? && i == |r.result| - 1)
    decreases |s.items| - p, 0
  {
    match Peek(s, p)
    case Broken(d) => Failed(Error(d))
    case AtEnd => Done(acc, p)
    case Next(t) =>
      if t.kind != Kind.Else then Done(acc, p)
      else
        var after := Peek(s, p + 1);
        if after.Broken? then Failed(Error(after.diag))
        else if after.Next? && after.token.kind == Kind.If then
          var elseIf := ParseIfExpression(s, p + 1);
          if elseIf.Failed? then elseIf.Propagate() else
          ElseLoop(s, elseIf.next, acc + [elseIf.result])
        else
          var elseBlock := ParseExprBlock(s, p + 1);
          if elseBlock.Failed? then elseBlock.Propagate() else
          Done(acc + [elseBlock.result], elseBlock.next)
  }

  /** An operator in primary position: only a parenthesised group is
      supported; the group yields its inner expression unchanged. */
  function ParseOperation(s: Stream, p: nat): (r: Parsed<Expression>)
    requires p < |s.items| && s.items[p].Lexed? && s.items[p].token.kind.Op?
    ensures Advances(s, p, r)
    ensures s.items[p].token.kind.operator != LeftParen ==> r == Failed(Panic(UnsupportedOperator))
    ensures r.Done? ==> TokenAt(s, r.next - 1, Op(RightParen))
    decreases |s.items| - p, 0
  {
    match s.items[p].token.kind.operator
    case LeftParen =>
      var inner := ParseWithPrecedence(s, p + 1, BASE);
      if inner.Failed? then inner else
      var close := Expect(s, inner.next, Op(RightParen));
      if close.Failed? then close.Propagate() else
      Done(inner.result, close.next)
    case _ => Failed(Panic(UnsupportedOperator))
  }

  /** `callee ( arg , … )` */
  function ParseFunCall(s: Stream, p: nat, callee: Expression): (r: Parsed<Expression>)
    requires p <= |s.items|
    ensures Advances(s, p, r)
    ensures r.Done? ==> r.result.FunCall? && r.result.ident == callee && TokenAt(s, r.next - 1, Op(RightParen))
    decreases |s.items| - p, 0
  {
    var open := Expect(s, p, Op(LeftParen));
    if open.Failed? then open.Propagate() else
    var arguments := ArgLoop(s, open.next, []);
    if arguments.Failed? then arguments.Propagate() else
    var close := Expect(s, arguments.next, Op(RightParen));
    if close.Failed? then close.Propagate() else
    Done(FunCall(callee, arguments.result, Location(callee.loc.startByte, close.result.loc.endByte)), close.next)
  }

  /** The argument loop of a call; every comma is skipped. */
  function ArgLoop(s: Stream, p: nat, acc: seq<Expression>): (r: Parsed<seq<Expression>>)
    requires p <= |s.items|
    ensures Stays(s, p, r) && Extends(acc, r)
    decreases |s.items| - p, 4
  {
    match Peek(s, p)
    case Broken(d) => Failed(Error(d))
    case AtEnd => Done(acc, p)
    case Next(t) =>
      if t.kind == Op(RightParen) then Done(acc, p)
      else if t.kind == Op(Comma) then ArgLoop(s, p + 1, acc)
      else
        var argument := ParseExpression(s, p);
        if argument.Failed? then argument.Propagate() else
        ArgLoop(s, argument.next, acc + [argument.result])
  }

  /** `target = init ;` */
  function ParseAssign(s: Stream, p: nat, target: Expression): (r: Parsed<Expression>)
    requires p <= |s.items|
    ensures Advances(s, p, r)
    ensures r.Done? ==> r.result.Assign? && r.result.ident == target && TokenAt(s, r.next - 1, Op(SemiColon))
    decreases |s.items| - p, 0
  {
    var equal := Expect(s, p, Op(Equal));
    if equal.Failed? then equal.Propagate() else
    var value := ParseInitializer(s, equal.next);
    if value.Failed? then value else
    var semi := Expect(s, value.next, Op(SemiColon));
    if semi.Failed? then semi.Propagate() else
    Done(Assign(target, value.result, Location(target.loc.startByte, semi.result.loc.endByte)), semi.next)
  }

  /** `return expr ;` */
  function ParseReturnExpression(s: Stream, p: nat): (r: Parsed<Expression>)
    requires p <= |s.items|
    ensures Advances(s, p, r)
    ensures r.Done? ==> r.result.Return? && TokenAt(s, p, Kind.Return) && TokenAt(s, r.next - 1, Op(SemiColon))
    decreases |s.items| - p, 0
  {
    var keyword := Expect(s, p, Kind.Return);
    if keyword.Failed? then keyword.Propagate() else
    var value := ParseExpression(s, keyword.next);
    if value.Failed? then value else
    var semi := Expect(s, value.next, Op(SemiColon));
    if semi.Failed? then semi.Propagate() else
    Done(Expression.Return(value.result, Location(keyword.result.loc.startByte, semi.result.loc.endByte)), semi.next)
  }

  /** One primary expression, chosen by the kind of the look-ahead token. */
  function ParsePrimary(s: Stream, p: nat): (r: Parsed<Expression>)
    requires p <= |s.items|
    ensures Advances(s, p, r)
    ensures p == |s.items| ==> r == Failed(Panic(MissingPrimary))
    decreases |s.items| - p, 1
  {
    match Peek(s, p)
    case Broken(d) => Failed(Error(d))
    case AtEnd => Failed(Panic(MissingPrimary))
    case Next(t) =>
      match t.kind
      case Value(_) => ParseValue(s, p)
      case Op(_) => ParseOperation(s, p)
      case Return => ParseReturnExpression(s, p)
      case If => ParseIfExpression(s, p)
      case _ => Failed(Panic(UnsupportedToken))
  }

  /** Precedence climbing: a primary, then either a call or an assignment
      when the primary is an identifier followed by `(` or `=`, or else the
      operator loop. */
  function ParseWithPrecedence(s: Stream, p: nat, min: nat): (r: Parsed<Expression>)
    requires p <= |s.items|
    ensures Advances(s, p, r)
    decreases |s.items| - p, 2
  {
    var left := ParsePrimary(s, p);
    if left.Failed? then left else
    if left.result.Ident? then
      match Peek(s, left.next)
      case Broken(d) => Failed(Error(d))
      case AtEnd => ClimbLoop(s, left.next, min, left.result)
      case Next(t) =>
        if t.kind == Op(LeftParen) then ParseFunCall(s, left.next, left.result)
        else if t.kind == Op(Equal) then ParseAssign(s, left.next, left.result)
        else ClimbLoop(s, left.next, min, left.result)
    else ClimbLoop(s, left.next, min, left.result)
  }

  /** The operator loop: while the look-ahead is a binary operator binding
      more strongly than `min`, consume it, climb its right operand from its
      own strength and fold the two sides into `left`. */
  function ClimbLoop(s: Stream, p: nat, min: nat, left: Expression): (r: Parsed<Expression>)
    requires p <= |s.items|
    ensures Stays(s, p, r)
    decreases |s.items| - p, 0
  {
    match Peek(s, p)
    case Broken(d) => Failed(Error(d))
    case AtEnd => Done(left, p)
    case Next(t) =>
      if !t.kind.Op? || !IsBinaryOp(t.kind.operator) then Done(left, p)
      else
        var precedence := GetPrecedence(t.kind.operator);
        if precedence <= min then Done(left, p)
        else
          var right := ParseWithPrecedence(s, p + 1, precedence);
          if right.Failed? then right else
          ClimbLoop(s, right.next, min,
                    BinaryOp(left, t.kind.operator, right.result,
                             Location(left.loc.startByte, right.result.loc.endByte)))
  }
}
