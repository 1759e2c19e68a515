/** Concrete token streams and the trees the grammar builds for them. Byte
    offsets are those of the source text written in each comment. */
module Scenarios {
  import opened Tokens
  import opened Cursor
  import opened Ast
  import opened Grammar
  import opened Climbing
  import opened Statements

  function Num(n: int, at: nat): Lexeme
  {
    Lexed(Token(Value(Primitive(Int(n, 64))), Location(at, at + 1)))
  }

  function Sym(op: Operator, at: nat): Lexeme
  {
    Lexed(Token(Op(op), Location(at, at + 1)))
  }

  function Name(x: string, at: nat): Lexeme
  {
    Lexed(Token(Value(Value.Ident(x)), Location(at, at + |x|)))
  }

  function Keyword(k: Kind, at: nat, len: nat): Lexeme
  {
    Lexed(Token(k, Location(at, at + len)))
  }

  function Lit(n: int, at: nat): Expression
  {
    IntLiteral(n, 64, Location(at, at + 1))
  }

  /** A name in front of `{` is a whole expression: it neither calls,
      assigns nor folds. */
  lemma NameBeforeBrace(s: Stream, p: nat)
    requires NameAt(s, p) && TokenAt(s, p + 1, Op(LeftBrace))
    ensures ParseExpression(s, p) ==
              Done(Expression.Ident(s.items[p].token.kind.value.name, s.items[p].token.loc), p + 1)
  {
    var name := Expression.Ident(s.items[p].token.kind.value.name, s.items[p].token.loc);
    assert ParsePrimary(s, p) == Done(name, p + 1);
    ClimbHalts(s, p + 1, BASE, name);
    assert ParseWithPrecedence(s, p, BASE) == Done(name, p + 1);
  }

  /** `1 + 2 * 3` is `1 + (2 * 3)`. */
  lemma ProductBindsTighter()
    ensures ParseExpression(Stream([Num(1, 0), Sym(Plus, 2), Num(2, 4), Sym(Star, 6), Num(3, 8)], 9), 0) ==
              Done(BinaryOp(Lit(1, 0), Plus, BinaryOp(Lit(2, 4), Star, Lit(3, 8), Location(4, 9)), Location(0, 9)), 5)
  {
    var s := Stream([Num(1, 0), Sym(Plus, 2), Num(2, 4), Sym(Star, 6), Num(3, 8)], 9);
    TwoOperators(s, 0, BASE);
  }

  /** `a + b * c` is `a + (b * c)`: plain names climb like literals. */
  lemma NamesClimb()
    ensures ParseExpression(Stream([Name("a", 0), Sym(Plus, 2), Name("b", 4), Sym(Star, 6), Name("c", 8)], 9), 0) ==
              Done(BinaryOp(Expression.Ident("a", Location(0, 1)), Plus,
                            BinaryOp(Expression.Ident("b", Location(4, 5)), Star, Expression.Ident("c", Location(8, 9)),
                                     Location(4, 9)), Location(0, 9)), 5)
  {
    var s := Stream([Name("a", 0), Sym(Plus, 2), Name("b", 4), Sym(Star, 6), Name("c", 8)], 9);
    TwoOperators(s, 0, BASE);
  }

  /** `1 * 2 + 3` is `(1 * 2) + 3`. */
  lemma ProductFoldsFirst()
    ensures ParseExpression(Stream([Num(1, 0), Sym(Star, 2), Num(2, 4), Sym(Plus, 6), Num(3, 8)], 9), 0) ==
              Done(BinaryOp(BinaryOp(Lit(1, 0), Star, Lit(2, 4), Location(0, 5)), Plus, Lit(3, 8), Location(0, 9)), 5)
  {
    var s := Stream([Num(1, 0), Sym(Star, 2), Num(2, 4), Sym(Plus, 6), Num(3, 8)], 9);
    TwoOperators(s, 0, BASE);
  }

  /** `1 + 2 * 3 - 4` is `(1 + (2 * 3)) - 4`. */
  lemma SimpleMath()
    ensures ParseExpression(Stream([Num(1, 0), Sym(Plus, 2), Num(2, 4), Sym(Star, 6), Num(3, 8),
                                    Sym(Minus, 10), Num(4, 12)], 13), 0) ==
              Done(BinaryOp(BinaryOp(Lit(1, 0), Plus, BinaryOp(Lit(2, 4), Star, Lit(3, 8), Location(4, 9)), Location(0, 9)),
                            Minus, Lit(4, 12), Location(0, 13)), 7)
  {
    var s := Stream([Num(1, 0), Sym(Plus, 2), Num(2, 4), Sym(Star, 6), Num(3, 8), Sym(Minus, 10), Num(4, 12)], 13);
    var product := BinaryOp(Lit(2, 4), Star, Lit(3, 8), Location(4, 9));
    var sum := BinaryOp(Lit(1, 0), Plus, product, Location(0, 9));
    AtomClimbs(s, 4, MUL);
    ClimbHalts(s, 5, MUL, Lit(3, 8));
    AtomClimbs(s, 2, SUM);
    ClimbHalts(s, 5, SUM, product);
    assert ParseWithPrecedence(s, 2, SUM) == Done(product, 5);
    AtomClimbs(s, 6, SUM);
    ClimbHalts(s, 7, SUM, Lit(4, 12));
    ClimbHalts(s, 7, BASE, BinaryOp(sum, Minus, Lit(4, 12), Location(0, 13)));
    assert ClimbLoop(s, 5, BASE, sum) == Done(BinaryOp(sum, Minus, Lit(4, 12), Location(0, 13)), 7);
    AtomClimbs(s, 0, BASE);
  }

  /** The stream of `var hello = 1 + 2 * 3;`. */
  function HelloStream(): Stream
  {
    Stream([Keyword(Kind.Var, 0, 3), Name("hello", 4), Sym(Equal, 10), Num(1, 12), Sym(Plus, 14),
            Num(2, 16), Sym(Star, 18), Num(3, 20), Sym(SemiColon, 21)], 22)
  }

  /** Its initializer is `1 + (2 * 3)` and stops in front of the `;`. */
  lemma HelloInitializer()
    ensures ParseInitializer(HelloStream(), 3) ==
              Done(BinaryOp(Lit(1, 12), Plus, BinaryOp(Lit(2, 16), Star, Lit(3, 20), Location(16, 21)),
                            Location(12, 21)), 8)
  {
    var s := HelloStream();
    TwoOperators(s, 3, BASE);
    assert ParseInitializer(s, 3) == ParseWithPrecedence(s, 3, BASE);
  }

  /** `var hello = 1 + 2 * 3;` declares a mutable `hello` whose value is
      `1 + (2 * 3)`, spanning `var` to the `3`. */
  lemma MutableVariable()
    ensures ParseExpression(HelloStream(), 0) ==
              Done(Expression.Var(true, None, "hello",
                                  BinaryOp(Lit(1, 12), Plus, BinaryOp(Lit(2, 16), Star, Lit(3, 20), Location(16, 21)),
                                           Location(12, 21)), Location(0, 21)), 9)
  {
    var s := HelloStream();
    assert ParseExpression(s, 0) == ParseVariable(s, 0);
    assert ExpectOneOf(s, 0, {Kind.Var, Kind.Const}) == Done(Token(Kind.Var, Location(0, 3)), 1);
    assert ParseIdentifier(s, 1) == Done(Expression.Ident("hello", Location(4, 9)), 2);
    assert ParseTypeAnnotation(s, 2) == Done(None, 2);
    assert Expect(s, 2, Op(Equal)) == Done(Token(Op(Equal), Location(10, 11)), 3);
    HelloInitializer();
    assert Expect(s, 8, Op(SemiColon)) == Done(Token(Op(SemiColon), Location(21, 22)), 9);
  }

  /** The stream of `(1 + 2) * 3`. */
  function GroupStream(): Stream
  {
    Stream([Sym(LeftParen, 0), Num(1, 1), Sym(Plus, 3), Num(2, 5), Sym(RightParen, 6),
            Sym(Star, 8), Num(3, 10)], 11)
  }

  /** The group `(1 + 2)` is the sum itself, spanning `1` to `2` only. */
  lemma GroupSum()
    ensures ParseOperation(GroupStream(), 0) == Done(BinaryOp(Lit(1, 1), Plus, Lit(2, 5), Location(1, 6)), 5)
  {
    var s := GroupStream();
    assert Pairs(s, 2, 1, SUM);
    EqualStrengthFoldsLeft(s, 1, 1, SUM, BASE);
    GroupIsInner(s, 0);
  }

  /** `(1 + 2) * 3` is `(1 + 2) * 3`: the parentheses override the strength
      table, and the root starts at the `1`, not at the `(`. */
  lemma GroupOverridesStrength()
    ensures ParseExpression(GroupStream(), 0) ==
              Done(BinaryOp(BinaryOp(Lit(1, 1), Plus, Lit(2, 5), Location(1, 6)), Star, Lit(3, 10), Location(1, 11)), 7)
  {
    var s := GroupStream();
    var sum := BinaryOp(Lit(1, 1), Plus, Lit(2, 5), Location(1, 6));
    GroupSum();
    assert ParsePrimary(s, 0) == Done(sum, 5);
    assert Pairs(s, 5, 1, MUL);
    PairsFold(s, 5, 1, MUL, BASE, sum);
    assert ParseExpression(s, 0) == ParseWithPrecedence(s, 0, BASE);
  }

  /** `return` as the last token reaches the end of input where
      `parse_expression` expects a token: the `EmptyInput` panic. */
  lemma ReturnAtEnd()
    ensures ParseExpression(Stream([Keyword(Kind.Return, 0, 6)], 6), 0) == Failed(Panic(EmptyInput))
  {
    var s := Stream([Keyword(Kind.Return, 0, 6)], 6);
    assert ParseReturnExpression(s, 0) == Failed(Panic(EmptyInput));
    assert ParsePrimary(s, 0) == Failed(Panic(EmptyInput));
  }

  /** `1 - 2 - 3` is `(1 - 2) - 3`. */
  lemma DifferenceFoldsLeft()
    ensures ParseExpression(Stream([Num(1, 0), Sym(Minus, 2), Num(2, 4), Sym(Minus, 6), Num(3, 8)], 9), 0) ==
              Done(BinaryOp(BinaryOp(Lit(1, 0), Minus, Lit(2, 4), Location(0, 5)), Minus, Lit(3, 8), Location(0, 9)), 5)
  {
    var s := Stream([Num(1, 0), Sym(Minus, 2), Num(2, 4), Sym(Minus, 6), Num(3, 8)], 9);
    assert Pairs(s, 1, 2, SUM);
    EqualStrengthFoldsLeft(s, 0, 2, SUM, BASE);
  }

  /** `1 < 2` stops after `1`: the comparison is left unconsumed. */
  lemma ComparisonLeftOver()
    ensures ParseExpression(Stream([Num(1, 0), Sym(Less, 2), Num(2, 4)], 5), 0) == Done(Lit(1, 0), 1)
  {
    var s := Stream([Num(1, 0), Sym(Less, 2), Num(2, 4)], 5);
    AtomClimbs(s, 0, BASE);
    UntabledOperatorHalts(s, 1, BASE, Lit(1, 0));
  }

  /** `1 +` runs out of tokens where the right operand should start. */
  lemma DanglingOperator()
    ensures ParseExpression(Stream([Num(1, 0), Sym(Plus, 2)], 3), 0) == Failed(Panic(MissingPrimary))
  {
    var s := Stream([Num(1, 0), Sym(Plus, 2)], 3);
    AtomClimbs(s, 0, BASE);
  }

  /** `f(1) + 2` is the call alone; `+ 2` is left unconsumed. */
  lemma CallLeavesOperator()
    ensures ParseExpression(Stream([Name("f", 0), Sym(LeftParen, 1), Num(1, 2), Sym(RightParen, 3),
                                    Sym(Plus, 5), Num(2, 7)], 8), 0) ==
              Done(FunCall(Expression.Ident("f", Location(0, 1)), [Lit(1, 2)], Location(0, 4)), 4)
  {
    var s := Stream([Name("f", 0), Sym(LeftParen, 1), Num(1, 2), Sym(RightParen, 3),
                     Sym(Plus, 5), Num(2, 7)], 8);
    var f := Expression.Ident("f", Location(0, 1));
    CallEndsClimb(s, 0, BASE);
    AtomClimbs(s, 2, BASE);
    assert ParseExpression(s, 2) == Done(Lit(1, 2), 3);
    assert ArgLoop(s, 3, [Lit(1, 2)]) == Done([Lit(1, 2)], 3);
    CallShape(s, 1, f);
  }

  /** A literal that the look-ahead after it halts is a whole expression. */
  lemma LoneAtom(s: Stream, i: nat)
    requires IsAtom(s, i) && i + 1 <= |s.items| && Halts(s, i + 1, BASE)
    ensures ParseExpression(s, i) == Done(Atom(s, i), i + 1)
  {
    AtomClimbs(s, i, BASE);
    ClimbHalts(s, i + 1, BASE, Atom(s, i));
  }

  /** The stream of `1 + f(2) * 3`. */
  function CallOperandStream(): Stream
  {
    Stream([Num(1, 0), Sym(Plus, 2), Name("f", 4), Sym(LeftParen, 5), Num(2, 6), Sym(RightParen, 7),
            Sym(Star, 9), Num(3, 11)], 12)
  }

  /** Its call `f(2)` parses on its own, ending after the `)`. */
  lemma CallOperandCall()
    ensures ParseFunCall(CallOperandStream(), 3, Expression.Ident("f", Location(4, 5))) ==
              Done(FunCall(Expression.Ident("f", Location(4, 5)), [Lit(2, 6)], Location(4, 8)), 6)
  {
    var s := CallOperandStream();
    LoneAtom(s, 4);
    ArgumentStep(s, 4, []);
    assert [] + [Lit(2, 6)] == [Lit(2, 6)];
    assert ArgLoop(s, 5, [Lit(2, 6)]) == Done([Lit(2, 6)], 5);
    CallShape(s, 3, Expression.Ident("f", Location(4, 5)));
  }

  /** `1 + f(2) * 3` is `(1 + f(2)) * 3`: with a call as its right operand,
      `+` is folded before `*` is read. */
  lemma CallOperandFoldsFirst()
    ensures ParseExpression(CallOperandStream(), 0) ==
              Done(BinaryOp(BinaryOp(Lit(1, 0), Plus,
                                     FunCall(Expression.Ident("f", Location(4, 5)), [Lit(2, 6)], Location(4, 8)),
                                     Location(0, 8)),
                            Star, Lit(3, 11), Location(0, 12)), 8)
  {
    var s := CallOperandStream();
    var call := FunCall(Expression.Ident("f", Location(4, 5)), [Lit(2, 6)], Location(4, 8));
    var sum := BinaryOp(Lit(1, 0), Plus, call, Location(0, 8));
    AtomClimbs(s, 0, BASE);
    CallOperandCall();
    CallOperandFoldsAtOnce(s, 1, BASE, Lit(1, 0));
    CallOperandTail();
    assert ParseExpression(s, 0) == ParseWithPrecedence(s, 0, BASE);
  }

  /** After `1 + f(2)` is folded, `* 3` is climbed at the base strength. */
  lemma CallOperandTail()
    ensures var sum := BinaryOp(Lit(1, 0), Plus,
                                FunCall(Expression.Ident("f", Location(4, 5)), [Lit(2, 6)], Location(4, 8)),
                                Location(0, 8));
            ClimbLoop(CallOperandStream(), 6, BASE, sum) == Done(BinaryOp(sum, Star, Lit(3, 11), Location(0, 12)), 8)
  {
    var s := CallOperandStream();
    AtomClimbs(s, 7, MUL);
    assert ParseWithPrecedence(s, 7, MUL) == Done(Lit(3, 11), 8);
  }

  /** The stream of `f(1,,2)`. */
  function DoubledCommaStream(): Stream
  {
    Stream([Name("f", 0), Sym(LeftParen, 1), Num(1, 2), Sym(Comma, 3), Sym(Comma, 4),
            Num(2, 5), Sym(RightParen, 6)], 7)
  }

  /** Its argument loop collects `1` and `2` and stops in front of `)`. */
  lemma DoubledCommaArguments()
    ensures ArgLoop(DoubledCommaStream(), 2, []) == Done([Lit(1, 2), Lit(2, 5)], 6)
  {
    var s := DoubledCommaStream();
    LoneAtom(s, 2);
    ArgumentStep(s, 2, []);
    assert [] + [Lit(1, 2)] == [Lit(1, 2)];
    CommasSkipped(s, 3, 2, [Lit(1, 2)]);
    LoneAtom(s, 5);
    ArgumentStep(s, 5, [Lit(1, 2)]);
    assert [Lit(1, 2)] + [Lit(2, 5)] == [Lit(1, 2), Lit(2, 5)];
    assert ArgLoop(s, 6, [Lit(1, 2), Lit(2, 5)]) == Done([Lit(1, 2), Lit(2, 5)], 6);
  }

  /** `f(1,,2)` calls `f` with the arguments `1` and `2`. */
  lemma DoubledComma()
    ensures ParseExpression(DoubledCommaStream(), 0) ==
              Done(FunCall(Expression.Ident("f", Location(0, 1)), [Lit(1, 2), Lit(2, 5)], Location(0, 7)), 7)
  {
    var s := DoubledCommaStream();
    CallEndsClimb(s, 0, BASE);
    DoubledCommaArguments();
    CallShape(s, 1, Expression.Ident("f", Location(0, 1)));
  }

  /** The stream of `f(1,2,)`. */
  function TrailingCommaStream(): Stream
  {
    Stream([Name("f", 0), Sym(LeftParen, 1), Num(1, 2), Sym(Comma, 3), Num(2, 4),
            Sym(Comma, 5), Sym(RightParen, 6)], 7)
  }

  /** Its argument loop collects `1` and `2`, skips the last comma and stops
      in front of `)`. */
  lemma TrailingCommaArguments()
    ensures ArgLoop(TrailingCommaStream(), 2, []) == Done([Lit(1, 2), Lit(2, 4)], 6)
  {
    var s := TrailingCommaStream();
    LoneAtom(s, 2);
    ArgumentStep(s, 2, []);
    assert [] + [Lit(1, 2)] == [Lit(1, 2)];
    CommasSkipped(s, 3, 1, [Lit(1, 2)]);
    LoneAtom(s, 4);
    ArgumentStep(s, 4, [Lit(1, 2)]);
    assert [Lit(1, 2)] + [Lit(2, 4)] == [Lit(1, 2), Lit(2, 4)];
    CommasSkipped(s, 5, 1, [Lit(1, 2), Lit(2, 4)]);
    assert ArgLoop(s, 6, [Lit(1, 2), Lit(2, 4)]) == Done([Lit(1, 2), Lit(2, 4)], 6);
  }

  /** `f(1,2,)` calls `f` with the arguments `1` and `2`. */
  lemma TrailingComma()
    ensures ParseExpression(TrailingCommaStream(), 0) ==
              Done(FunCall(Expression.Ident("f", Location(0, 1)), [Lit(1, 2), Lit(2, 4)], Location(0, 7)), 7)
  {
    var s := TrailingCommaStream();
    CallEndsClimb(s, 0, BASE);
    TrailingCommaArguments();
    CallShape(s, 1, Expression.Ident("f", Location(0, 1)));
  }

  /** `const x: int = 1;` is an immutable declaration with a type, spanning
      `const` to the `1`. */
  lemma TypedDeclaration()
    ensures ParseExpression(Stream([Keyword(Kind.Const, 0, 5), Name("x", 6), Sym(Colon, 7), Name("int", 9),
                                    Sym(Equal, 13), Num(1, 15), Sym(SemiColon, 16)], 17), 0) ==
              Done(Expression.Var(false, Some(Expression.Ident("int", Location(9, 12))), "x", Lit(1, 15),
                                  Location(0, 16)), 7)
  {
    var s := Stream([Keyword(Kind.Const, 0, 5), Name("x", 6), Sym(Colon, 7), Name("int", 9),
                     Sym(Equal, 13), Num(1, 15), Sym(SemiColon, 16)], 17);
    AtomClimbs(s, 5, BASE);
    assert ParseInitializer(s, 5) == Done(Lit(1, 15), 6);
    assert ParseTypeAnnotation(s, 2) == Done(Some(Expression.Ident("int", Location(9, 12))), 4);
  }

  /** The stream of `if a {} else if b {} else {}`. */
  function ElseIfStream(): Stream
  {
    Stream([Keyword(Kind.If, 0, 2), Name("a", 3), Sym(LeftBrace, 5), Sym(RightBrace, 6),
            Keyword(Kind.Else, 8, 4), Keyword(Kind.If, 13, 2), Name("b", 16), Sym(LeftBrace, 18), Sym(RightBrace, 19),
            Keyword(Kind.Else, 21, 4), Sym(LeftBrace, 26), Sym(RightBrace, 27)], 28)
  }

  /** The inner conditional `if b {} else {}` of that stream. */
  lemma InnerConditional()
    ensures ParseIfExpression(ElseIfStream(), 5) ==
              Done(Expression.If(Expression.Ident("b", Location(16, 17)), Block([], Location(18, 20)),
                                 [Block([], Location(26, 28))], Location(13, 28)), 12)
  {
    var s := ElseIfStream();
    NameBeforeBrace(s, 6);
    EmptyBlock(s, 7);
    EmptyBlock(s, 10);
    assert ElseLoop(s, 9, []) == Done([Block([], Location(26, 28))], 12);
  }

  /** The `else` chain of the outer conditional holds the inner one alone. */
  lemma OuterChain()
    ensures ElseLoop(ElseIfStream(), 4, []) ==
              Done([Expression.If(Expression.Ident("b", Location(16, 17)), Block([], Location(18, 20)),
                                  [Block([], Location(26, 28))], Location(13, 28))], 12)
  {
    var s := ElseIfStream();
    var inner := Expression.If(Expression.Ident("b", Location(16, 17)), Block([], Location(18, 20)),
                               [Block([], Location(26, 28))], Location(13, 28));
    InnerConditional();
    assert Peek(s, 4) == Next(Token(Kind.Else, Location(8, 12)));
    assert Peek(s, 5) == Next(Token(Kind.If, Location(13, 15)));
    assert ElseLoop(s, 4, []) == ElseLoop(s, 12, [] + [inner]);
    assert [] + [inner] == [inner];
    assert ElseLoop(s, 12, [inner]) == Done([inner], 12);
  }

  /** The outer conditional of that stream. */
  lemma OuterConditional()
    ensures ParseIfExpression(ElseIfStream(), 0) ==
              Done(Expression.If(Expression.Ident("a", Location(3, 4)), Block([], Location(5, 7)),
                                 [Expression.If(Expression.Ident("b", Location(16, 17)), Block([], Location(18, 20)),
                                                [Block([], Location(26, 28))], Location(13, 28))],
                                 Location(0, 28)), 12)
  {
    var s := ElseIfStream();
    var inner := Expression.If(Expression.Ident("b", Location(16, 17)), Block([], Location(18, 20)),
                               [Block([], Location(26, 28))], Location(13, 28));
    assert Expect(s, 0, Kind.If) == Done(Token(Kind.If, Location(0, 2)), 1);
    NameBeforeBrace(s, 1);
    assert ParseExpression(s, 1) == Done(Expression.Ident("a", Location(3, 4)), 2);
    EmptyBlock(s, 2);
    assert ParseExprBlock(s, 2) == Done(Block([], Location(5, 7)), 4);
    OuterChain();
    assert ElseLoop(s, 4, []) == Done([inner], 12);
  }

  /** `if a {} else if b {} else {}` has one other branch, the inner
      conditional, which holds the final `else` block itself; the whole
      conditional spans `if` to the last `}`. */
  lemma ElseIfNests()
    ensures ParseExpression(ElseIfStream(), 0) ==
              Done(Expression.If(Expression.Ident("a", Location(3, 4)), Block([], Location(5, 7)),
                                 [Expression.If(Expression.Ident("b", Location(16, 17)), Block([], Location(18, 20)),
                                                [Block([], Location(26, 28))], Location(13, 28))],
                                 Location(0, 28)), 12)
  {
    var s := ElseIfStream();
    OuterConditional();
    ClimbHalts(s, 12, BASE, ParseIfExpression(s, 0).result);
    assert ParsePrimary(s, 0) == ParseIfExpression(s, 0);
  }
}
