# rmb-parser expressions, in Dafny

This project models the expression parser of the `remember` language, `rmb-parser/src/expression.rs`. The parser is recursive descent. It reads the lexer's tokens through a peek/next/expect cursor and builds an `Expression` tree, and every node of that tree carries the byte range it was parsed from. Binary operators are parsed by precedence climbing over a five-level strength table.

The model has two layers:

- **Grammar** (`grammar.dfy`) is the reference definition. Each `parse_*` routine becomes a pure function of the token stream and a position. It returns the tree together with the position after the tokens it consumed, or the failure.
  - The three loops of the source become tail-recursive functions: the block loop, the argument loop and the `else` chain.
  - The operator loop becomes one more such function.
  - The routines terminate on the measure (tokens left, rank of the routine).
  - Every routine that must consume something is proved to do so. This includes `ParseExpression`, the progress fact the block and argument loops rely on.
- **Parser** (`parser.dfy`) is the imperative parser. It has one method per routine, working on a `Lexer` object whose position it advances in place, with `while` loops where the source loops.
  - Each method is proved to return exactly what the matching Grammar function computes.
  - Each method is also proved to leave the lexer just after the tokens that function consumed.

The properties are proved about the Grammar layer:

- `climbing.dfy`: the strength table, when the operator loop stops, and the shapes it builds.
- `chains.dfy`: precedence climbing over whole chains `a0 op1 a1 … opn an` of single-token operands, of any length and any mix of strengths.
- `statements.dfy`: declarations, blocks, `if` chains, calls, assignments and returns.
- `locations.dfy`: the location invariant, for streams whose token ranges are ordered.
- `scenarios.dfy`: concrete token streams. Among them are the inputs of the source's own tests `simple_math` and `mutable_variable`.

Failures are kept apart:

- A diagnostic has a kind and a labelled span. The kinds are lexical error, unexpected token, unexpected end of file, and bad identifier.
- A panic names the `todo!`, `unreachable!` or overflow site it stands for.

Behaviours of the code worth knowing:

- **Associativity** (expression.rs:306, 314). Operators of equal strength fold to the left, so `1 - 2 - 3` is `(1 - 2) - 3`. The loop stops on `precedence <= min_precedence`, and the right operand is climbed at the operator's own strength (`Climbing.EqualStrengthFoldsLeft`, `Scenarios.DifferenceFoldsLeft`).
- **Precedence over whole chains** (expression.rs:291-323). A chain of operators that all bind above the minimum, followed by a token that halts the loop, is consumed whole. The tree it yields is precedence-shaped: at every operation, the left operand's root binds at least as strongly as the operation and the right operand's root strictly more strongly, a single-token operand counting as strongest. Its in-order reading is exactly the chain, so no operand or operator is lost, duplicated or reordered (`Chains.ClimbChain`).
- **Calls as operands** (expression.rs:283-285). `parse_with_precedence` returns a call before its operator loop is reached. A call as the right operand of an operator is therefore folded at once, and a stronger operator after it does not bind to the call: `1 + f(2) * 3` is `(1 + f(2)) * 3` (`Statements.CallOperandFoldsAtOnce`, `Scenarios.CallOperandFoldsFirst`).
- **Operators outside the strength table** (expression.rs:17-25, 300-308). `Kind::is_binary_op` is not part of this model; the model's binary set holds `||`, `<`, `<=`, `>` and `>=`, which the strength table lacks. Such an operator does not fail: the loop stops in front of it and returns what it has, so `1 < 2` parses as `1` and leaves `< 2` unconsumed (`Climbing.UntabledOperatorHalts`, `Scenarios.ComparisonLeftOver`). Conversely `(` is in the table at APPLY (expression.rs:22) but not in the binary set, so that entry never takes effect. A unary `!` in primary position does fail, with the `UnsupportedOperator` panic (expression.rs:207).
- **Groups** (expression.rs:201-205). A parenthesised group yields its inner expression unchanged, so parentheses override the strength table, and the group's node, like its parent's, has a location that leaves out the parentheses: `(1 + 2) * 3` spans from the `1`, not from the `(`. A root therefore need not cover every byte it consumed (`Statements.GroupIsInner`, `Scenarios.GroupOverridesStrength`).
- **`if a {} else if b {} else {}`** (expression.rs:143-155). The outer conditional has ONE other branch: the nested conditional takes the final `else` block into its own chain (`Statements.ElseIfTakesTheRest`, `Scenarios.ElseIfNests`).
- **`parse_expression` at end of input** (expression.rs:33). This is an `unreachable!` arm, but it is reachable, for example by `return` as the last token (`Scenarios.ReturnAtEnd`). The model makes it the `EmptyInput` panic, not a precondition.

## Model

| member | source | states |
|---|---|---|
| Grammar.ParseIdentifier | rmb-parser/src/expression.rs:37-63 | succeeds exactly on an identifier token with a non-empty name and consumes that one token; another token fails with a bad-identifier label at its span; end of input fails with "unexpected end of file" at bytes `len-1..len` |
| Cursor.EndOfInput | rmb-parser/src/expression.rs:52-61 | the end-of-file label covers the last source byte; with overflow checks on, an empty source underflows `len - 1` and panics |
| Cursor.Peek | rmb-parser/src/expression.rs:28 | the look-ahead is end of input exactly at the end of the stream, otherwise the token there or its lexical error |
| Cursor.ExpectOneOf | rmb-parser/src/expression.rs:94 | consumes exactly one token iff its kind is one of the given kinds; end of input gives the end-of-file failure |
| Cursor.Expect | rmb-parser/src/expression.rs:68 | consumes exactly one token iff it has the given kind |
| Lexing.Lexer.constructor | rmb-parser/src/expression.rs:365-367 | a lexer starts at the first token of its stream |
| Lexing.Lexer.Peek | rmb-parser/src/expression.rs:28 | returns the look-ahead of the current position without moving |
| Lexing.Lexer.Next | rmb-parser/src/expression.rs:141 | returns the look-ahead and moves past it exactly when it is a token |
| Lexing.Lexer.Expect | rmb-parser/src/expression.rs:68 | agrees with `Cursor.Expect`, moving the position past the consumed token |
| Lexing.Lexer.ExpectOneOf | rmb-parser/src/expression.rs:94 | agrees with `Cursor.ExpectOneOf`, moving the position past the consumed token |
| Grammar.GetPrecedence | rmb-parser/src/expression.rs:17-25 | the strength table: every strength is at most APPLY, and exactly `+ - * / && ( == !=` bind above BASE; every other operator is at BASE |
| Grammar.ParseExpression | rmb-parser/src/expression.rs:27-35 | a parse that succeeds consumes at least one token; at end of input it is the `EmptyInput` panic |
| Grammar.ParseExprBlock | rmb-parser/src/expression.rs:65-91 | a block that parses is a `Block` node that starts at `{` and ends just after a `}` |
| Grammar.BlockLoop | rmb-parser/src/expression.rs:70-82 | the loop keeps the expressions collected so far as a prefix and never moves backwards |
| Grammar.ParseTypeAnnotation | rmb-parser/src/expression.rs:99-105 | the annotation is absent exactly when nothing is consumed, which happens only when no `:` follows; an annotation is `:` and an identifier, two tokens |
| Grammar.ParseInitializer | rmb-parser/src/expression.rs:109-115 | a value consumes at least one token; end of input right after `=` is the `MissingInitializer` panic |
| Grammar.ParseVariable | rmb-parser/src/expression.rs:93-127 | a declaration is a `Var` node that starts at `var` or `const` and ends just after a `;`; it is mutable exactly when the keyword is `var` |
| Grammar.ParseIfExpression | rmb-parser/src/expression.rs:129-173 | a conditional is an `If` node starting at `if` and consumes at least one token |
| Grammar.ElseLoop | rmb-parser/src/expression.rs:138-159 | the chain keeps the collected branches as a prefix; each new branch is a nested conditional, except possibly the last, which may be a block |
| Grammar.ParseValue | rmb-parser/src/expression.rs:175-189 | a value consumes its one token and carries that token's location; a literal gives a node whose payload is the token's, unchanged; a non-empty identifier gives `Ident` of that name and an empty one the bad-identifier label; any other value kind is the `UnsupportedValue` panic |
| Grammar.ParsePrimitive | rmb-parser/src/expression.rs:342-358 | a literal token always parses, consuming one token; the node keeps the token's location, and its payload (value, size, float bits) is the token's, unchanged |
| Grammar.ParseOperation | rmb-parser/src/expression.rs:191-209 | only `(` is supported: any other operator is the `UnsupportedOperator` panic; a group consumes at least one token and ends just after a `)` |
| Grammar.ParseFunCall | rmb-parser/src/expression.rs:211-246 | a call is a `FunCall` node of the given callee that ends just after a `)` |
| Grammar.ArgLoop | rmb-parser/src/expression.rs:219-235 | the loop keeps the collected arguments as a prefix and never moves backwards |
| Grammar.ParseAssign | rmb-parser/src/expression.rs:248-266 | an assignment is an `Assign` node of the given target that ends just after a `;` |
| Grammar.ParsePrimary | rmb-parser/src/expression.rs:272-281 | a primary consumes at least one token; at end of input it is the `MissingPrimary` panic |
| Grammar.ParseWithPrecedence | rmb-parser/src/expression.rs:268-326 | a climb consumes at least one token |
| Grammar.ClimbLoop | rmb-parser/src/expression.rs:291-325 | the operator loop never moves backwards |
| Grammar.ParseReturnExpression | rmb-parser/src/expression.rs:328-340 | a return is a `Return` node that starts at `return` and ends just after a `;` |
| Parser.ParseExpression | rmb-parser/src/expression.rs:27-35 | returns what `Grammar.ParseExpression` computes from the entry position and leaves the lexer just after the tokens it consumed |
| Parser.ParseIdentifier | rmb-parser/src/expression.rs:37-63 | agrees with `Grammar.ParseIdentifier` in result and final position |
| Parser.ParseExprBlock | rmb-parser/src/expression.rs:65-91 | the block loop agrees with `Grammar.ParseExprBlock` in result and final position |
| Parser.ParseVariable | rmb-parser/src/expression.rs:93-127 | agrees with `Grammar.ParseVariable` in result and final position |
| Parser.ParseIfExpression | rmb-parser/src/expression.rs:129-173 | agrees with `Grammar.ParseIfExpression` in result and final position |
| Parser.ParseElseChain | rmb-parser/src/expression.rs:136-159 | the `else` loop agrees with `Grammar.ElseLoop` in branches and final position |
| Parser.ParseValue | rmb-parser/src/expression.rs:175-189 | agrees with `Grammar.ParseValue` in result and final position |
| Parser.ParseOperation | rmb-parser/src/expression.rs:191-209 | agrees with `Grammar.ParseOperation` in result and final position |
| Parser.ParseFunCall | rmb-parser/src/expression.rs:211-246 | the argument loop agrees with `Grammar.ParseFunCall` in result and final position |
| Parser.ParseAssign | rmb-parser/src/expression.rs:248-266 | agrees with `Grammar.ParseAssign` in result and final position |
| Parser.ParsePrimary | rmb-parser/src/expression.rs:272-281 | agrees with `Grammar.ParsePrimary` in result and final position |
| Parser.ParseWithPrecedence | rmb-parser/src/expression.rs:268-290 | agrees with `Grammar.ParseWithPrecedence` in result and final position |
| Parser.ClimbOperators | rmb-parser/src/expression.rs:291-325 | the operator loop, reassigning `left`, agrees with `Grammar.ClimbLoop` in result and final position |
| Parser.ParseReturnExpression | rmb-parser/src/expression.rs:328-340 | agrees with `Grammar.ParseReturnExpression` in result and final position |
| Parser.ParsePrimitive | rmb-parser/src/expression.rs:342-358 | agrees with `Grammar.ParsePrimitive`: the literal node of the token's payload, one token consumed |
| Climbing.BindingOrder | rmb-parser/src/expression.rs:9-25 | `+ -` are at SUM, `* /` at MUL, `&&` at ASSOC, `( == !=` at APPLY, every other operator at BASE, and BASE < SUM < MUL < ASSOC < APPLY |
| Climbing.ClimbHalts | rmb-parser/src/expression.rs:291-308 | the loop returns the accumulated left side without consuming anything iff the look-ahead is end of input, not an operator, not binary, or binds no more strongly than the minimum |
| Climbing.ClimbKeepsLeft | rmb-parser/src/expression.rs:314-322 | the tree the loop returns has the accumulated left side as its leftmost operand |
| Climbing.AtomClimbs | rmb-parser/src/expression.rs:272-291 | a single-token operand (a literal, or an identifier followed by neither `(` nor `=`) goes straight into the operator loop |
| Climbing.PairsFold | rmb-parser/src/expression.rs:291-323 | over operator/operand pairs of one strength above the minimum, the loop folds each pair onto the tree built so far |
| Climbing.EqualStrengthFoldsLeft | rmb-parser/src/expression.rs:304-323 | a run of equal-strength operators over single-token operands parses as their left fold |
| Climbing.TwoOperators | rmb-parser/src/expression.rs:291-323 | for `a op1 b op2 c` over single-token operands: a stronger `op2` nests on the right, one no stronger folds to the left, one not above the minimum is left unconsumed |
| Climbing.UntabledOperatorHalts | rmb-parser/src/expression.rs:17-25 | the loop stops in front of `\|\|`, `<`, `<=`, `>` and `>=` at every strength |
| Chains.ClimbChain | rmb-parser/src/expression.rs:268-323 | a single-token operand followed by `n` operator/operand pairs that all bind above `min`, then a look-ahead that halts the loop at `min`, parses whole, consuming `1 + 2n` tokens, into a precedence-shaped tree whose in-order reading is the operand followed by the pairs; with no pairs it is the operand itself |
| Chains.LoopChain | rmb-parser/src/expression.rs:291-323 | the operator loop over such a run, from a precedence-shaped left side binding at least as strongly as the first operator, consumes the whole run and yields a precedence-shaped tree whose reading is the left side's followed by the run's |
| Chains.LoopRound | rmb-parser/src/expression.rs:300-323 | one round of the loop: the right operand of the first operator takes exactly the longest following prefix of pairs binding more strongly than that operator, and the loop goes on after it with the fold |
| Chains.LoopGoesOn | rmb-parser/src/expression.rs:314-323 | after the first fold, the loop over the rest of the run yields the tree and reading promised for the whole run |
| Chains.RightOperand | rmb-parser/src/expression.rs:312 | the right operand, climbed at the operator's strength, is a precedence-shaped tree binding more strongly than that operator whose reading is its first operand and the pairs it took |
| Chains.RightOperandStops | rmb-parser/src/expression.rs:300-308 | the climb of the right operand meets a look-ahead that halts it, either the operator after the pairs it took or the one that halts the outer loop |
| Chains.LongestAbove | rmb-parser/src/expression.rs:304-306 | every run has a longest prefix of pairs binding above a given strength, followed by end of run or an operator that does not |
| Chains.LoopStep | rmb-parser/src/expression.rs:300-322 | once the right operand of a look-ahead operator binding above the minimum is parsed, the loop goes on from after it with the fold of the left side, the operator and the right operand, spanning both |
| Chains.FoldShaped | rmb-parser/src/expression.rs:316-321 | folding a right operand that binds more strongly onto a left side that binds at least as strongly keeps the tree precedence-shaped; the fold binds at the operator's strength and reads as left, operator, right |
| Chains.FoldRest | rmb-parser/src/expression.rs:314-323 | after a fold, the loop over the rest of the run is again ready: the fold binds at least as strongly as the next operator, and its reading with the rest is the reading of the left side with the whole run |
| Chains.ReadingAfterFold | rmb-parser/src/expression.rs:316-321 | the reading of the fold followed by the rest of the run is the reading of the left side followed by the whole run |
| Locations.ValueLocated | rmb-parser/src/expression.rs:175-189 | a value node is well located within its token |
| Locations.ExpressionLocated | rmb-parser/src/expression.rs:27-35 | the tree of any expression is well located within the tokens it consumed |
| Locations.ExprBlockLocated | rmb-parser/src/expression.rs:86 | a block is well located and spans `{` to `}` |
| Locations.BlockLoopLocated | rmb-parser/src/expression.rs:70-82 | every expression the block loop collects is well located within the loop's tokens |
| Locations.InitializerLocated | rmb-parser/src/expression.rs:109-115 | an initializer is well located within its tokens |
| Locations.VariableLocated | rmb-parser/src/expression.rs:119 | a declaration is well located within its tokens and spans the keyword to the end of its value |
| Locations.IfLocated | rmb-parser/src/expression.rs:161-166 | a conditional is well located within its tokens and spans `if` to the last token it consumed |
| Locations.ElseLoopLocated | rmb-parser/src/expression.rs:138-159 | every branch an `else` chain adds is well located within its tokens; a chain that adds nothing consumes nothing, and the last branch ends at the last token consumed |
| Locations.ElseIfLocated | rmb-parser/src/expression.rs:143-150 | the same, for a chain that starts with `else if` |
| Locations.OperationLocated | rmb-parser/src/expression.rs:201-205 | a grouped expression is well located within the parenthesised tokens |
| Locations.FunCallLocated | rmb-parser/src/expression.rs:239 | given a well-located callee, the call is well located within the callee's and the call's tokens |
| Locations.ArgLoopLocated | rmb-parser/src/expression.rs:219-235 | every argument is well located within the loop's tokens |
| Locations.AssignLocated | rmb-parser/src/expression.rs:259 | given a well-located target, the assignment is well located within the target's and its own tokens |
| Locations.ReturnLocated | rmb-parser/src/expression.rs:335 | a return is well located within its tokens |
| Locations.PrimaryLocated | rmb-parser/src/expression.rs:272-281 | a primary is well located within its tokens |
| Locations.WithPrecedenceLocated | rmb-parser/src/expression.rs:268-326 | a climbed expression is well located within its tokens |
| Locations.ClimbLoopLocated | rmb-parser/src/expression.rs:291-323 | given a well-located left side, every tree the operator loop folds is well located within the left side's and the loop's tokens |
| Locations.ParsedTreeWellLocated | rmb-parser/src/expression.rs:27-35 | for ordered token ranges, a parsed tree has start <= end at every node, every node encloses its children, and the root lies within the bytes of the tokens consumed |
| Statements.BlockLoopEnds | rmb-parser/src/expression.rs:70-82 | the block loop stops only at end of input or in front of `}` |
| Statements.BlockCloses | rmb-parser/src/expression.rs:65-91 | a block succeeds iff its body stops before end of input; an unclosed block is the end-of-file failure; the block holds the body's expressions and spans `{` to `}` |
| Statements.EmptyBlock | rmb-parser/src/expression.rs:65-91 | `{}` is the empty block spanning both braces |
| Statements.DeclarationShape | rmb-parser/src/expression.rs:93-127 | a declaration is keyword, name, optional `: type`, `=`, value, `;`; mutable iff `var`; it spans the keyword to the end of the value, without the `;` |
| Statements.DeclarationNeedsEqual | rmb-parser/src/expression.rs:107 | a name followed by neither `:` nor `=` is rejected at that token |
| Statements.DeclarationNeedsSemicolon | rmb-parser/src/expression.rs:117 | with or without a `: type` annotation, a value not followed by `;` is rejected at that token, with a lexical error there, or at end of input |
| Statements.IfWithoutElse | rmb-parser/src/expression.rs:136-164 | without `else` after the block there are no other branches, and the conditional ends at the block's end |
| Statements.ElseChainStops | rmb-parser/src/expression.rs:138-159 | a chain stops at end of input, before a non-`else` token, or right after a plain `else` block |
| Statements.ElseIfTakesTheRest | rmb-parser/src/expression.rs:143-155 | after `else if` the outer chain records the nested conditional, and goes on only when the nested chain ended with a plain `else` block followed by another `else` |
| Statements.NestedEndsWithBlock | rmb-parser/src/expression.rs:143-159 | when the outer chain goes on after an `else if`, the nested conditional's own chain ended with a plain `else` block and another `else` follows it |
| Statements.CallEndsClimb | rmb-parser/src/expression.rs:283-285 | an identifier followed by `(` is a call, returned without entering the operator loop |
| Statements.GroupIsInner | rmb-parser/src/expression.rs:191-209 | a group parses exactly when its inner expression, climbed from the base strength, does and a `)` follows; it yields that inner tree unchanged, location included, and consumes one token more; a failing inner expression is the group's failure |
| Statements.CallOperandFoldsAtOnce | rmb-parser/src/expression.rs:283-285 | a call as the right operand of a binary operator is folded as soon as its `)` is read, and the loop goes on at the outer strength |
| Statements.AssignEndsClimb | rmb-parser/src/expression.rs:283-286 | an identifier followed by `=` is an assignment, returned without entering the operator loop |
| Statements.CommasSkipped | rmb-parser/src/expression.rs:224-227 | any number of commas in the argument loop are skipped |
| Statements.ArgumentStep | rmb-parser/src/expression.rs:229-234 | any other token starts an argument, which the loop appends |
| Statements.ArgLoopEnds | rmb-parser/src/expression.rs:219-235 | the argument loop stops only at end of input or in front of `)` |
| Statements.CallShape | rmb-parser/src/expression.rs:211-246 | a call holds the loop's arguments and spans the callee to `)`; an unclosed call is the end-of-file failure |
| Statements.AssignShape | rmb-parser/src/expression.rs:248-266 | an assignment is `=`, value, `;` and spans its target to the `;` |
| Statements.ReturnShape | rmb-parser/src/expression.rs:328-340 | a return is `return`, expression, `;` and spans the keyword to the `;` |
| Scenarios.NameBeforeBrace | rmb-parser/src/expression.rs:283-298 | a name in front of `{` is a whole expression |
| Scenarios.SimpleMath | rmb-parser/src/expression.rs:370-381 | `1 + 2 * 3 - 4` is `(1 + (2 * 3)) - 4` |
| Scenarios.HelloInitializer | rmb-parser/src/expression.rs:109-115 | the value of `var hello = 1 + 2 * 3;` is `1 + (2 * 3)`, ending before the `;` |
| Scenarios.MutableVariable | rmb-parser/src/expression.rs:384-394 | `var hello = 1 + 2 * 3;` is a mutable declaration without a type that spans `var` to `3` |
| Scenarios.ProductBindsTighter | rmb-parser/src/expression.rs:304-314 | `1 + 2 * 3` is `1 + (2 * 3)` |
| Scenarios.NamesClimb | rmb-parser/src/expression.rs:291-323 | `a + b * c` is `a + (b * c)` |
| Scenarios.ProductFoldsFirst | rmb-parser/src/expression.rs:304-322 | `1 * 2 + 3` is `(1 * 2) + 3` |
| Scenarios.GroupSum | rmb-parser/src/expression.rs:191-209 | the group `(1 + 2)` is the sum itself, spanning `1` to `2` |
| Scenarios.GroupOverridesStrength | rmb-parser/src/expression.rs:201-205 | `(1 + 2) * 3` is `(1 + 2) * 3`, its root starting at the `1` |
| Scenarios.ReturnAtEnd | rmb-parser/src/expression.rs:27-35 | `return` as the only token reaches the `unreachable!` of `parse_expression`: the `EmptyInput` panic |
| Scenarios.DifferenceFoldsLeft | rmb-parser/src/expression.rs:306 | `1 - 2 - 3` is `(1 - 2) - 3` |
| Scenarios.ComparisonLeftOver | rmb-parser/src/expression.rs:300-308 | `1 < 2` parses as `1`, leaving `< 2` |
| Scenarios.DanglingOperator | rmb-parser/src/expression.rs:280 | `1 +` is the `MissingPrimary` panic |
| Scenarios.CallLeavesOperator | rmb-parser/src/expression.rs:283-285 | `f(1) + 2` parses as the call, leaving `+ 2` |
| Scenarios.LoneAtom | rmb-parser/src/expression.rs:291-298 | a literal followed by a token that halts the operator loop is a whole expression of one token |
| Scenarios.CallOperandCall | rmb-parser/src/expression.rs:211-246 | `f(2)` inside `1 + f(2) * 3` is a call ending after its `)` |
| Scenarios.CallOperandTail | rmb-parser/src/expression.rs:291-323 | after `1 + f(2)` is folded, `* 3` is folded onto it at the base strength |
| Scenarios.CallOperandFoldsFirst | rmb-parser/src/expression.rs:283-285 | `1 + f(2) * 3` is `(1 + f(2)) * 3` |
| Scenarios.DoubledCommaArguments | rmb-parser/src/expression.rs:219-235 | the argument loop of `f(1,,2)` collects `1` and `2` and stops in front of `)` |
| Scenarios.DoubledComma | rmb-parser/src/expression.rs:224-227 | `f(1,,2)` calls `f` with `1` and `2` |
| Scenarios.TrailingCommaArguments | rmb-parser/src/expression.rs:219-235 | the argument loop of `f(1,2,)` collects `1` and `2` and stops in front of `)` |
| Scenarios.TrailingComma | rmb-parser/src/expression.rs:224-227 | `f(1,2,)` calls `f` with `1` and `2` |
| Scenarios.TypedDeclaration | rmb-parser/src/expression.rs:99-105 | `const x: int = 1;` is immutable, has the type `int` and spans `const` to `1` |
| Scenarios.InnerConditional | rmb-parser/src/expression.rs:151-155 | `if b {} else {}` has the one `else` block as its other branch |
| Scenarios.OuterChain | rmb-parser/src/expression.rs:143-150 | the `else if b {} else {}` chain holds only the nested conditional |
| Scenarios.OuterConditional | rmb-parser/src/expression.rs:129-173 | `if a {} else if b {} else {}` spans `if` to the last `}` |
| Scenarios.ElseIfNests | rmb-parser/src/expression.rs:129-173 | the same, parsed from `parse_expression` |

## Left out

- **The lexer.** Tokenization, `transpose`, `complete_source` storage and `Kind::is_binary_op` belong to `rmb_lexer`, which is not part of this model.
  - A token stream is given as a sequence of tokens and lexical errors. It comes with the length of its source text.
  - The binary operators are the stated set: arithmetic, comparisons, `&&` and `||`.
- **The lexer's `expect` at end of input.** The lexer's code is not part of this model. It is assumed to report like `parse_identifier` does: "unexpected end of file" at the last source byte.
- **Diagnostics.** `miette` report construction, label texts and `with_source_code` are rendering. A diagnostic is a kind and a span.
- **Panics.** Each `todo!`, `unreachable!` and arithmetic-overflow stop is a distinct panic outcome. Their absence is not proved.
  - The `unreachable!` arms of `parse_value`, `parse_operation` and `parse_primitive` cannot be reached from their callers. In the model they are preconditions.
- **Literal payloads.** Sizes and float values are copied as opaque numbers. The float is carried as its bit pattern.
- **Lifetimes.** Borrowed `&'parser str` names are copied as strings. `parse_identifier`'s second result, the name, is the `name` of the returned `Ident` node.
- **Recursion depth.** Stack exhaustion on deeply nested input is not modelled; the recursion is unbounded.
- **Snapshot tests.** The `insta` snapshot files are not part of this model. The `simple_math` and `mutable_variable` inputs are stated as lemmas about the trees the model builds. `if_statement` and `if_as_variable_value` are covered only by the general `if`-chain lemmas.
- **Split loops.** The `else` chain of `parse_if_expression`, the primary dispatch and the operator loop of `parse_with_precedence` are separate methods in the imperative layer: `Parser.ParseElseChain`, `Parser.ParsePrimary` and `Parser.ClimbOperators`. Each keeps its loop and its reassigned variables; only the method boundary is new.
- Cursor.EndOfInput: follows a build with overflow checks on, as debug and test builds have. There, `len() - 1` on an empty source is the `SpanUnderflow` panic. A release build wraps around instead and labels `usize::MAX..0`; the model does not represent that label.
- Chains.ClimbChain: operands are single tokens, literals or identifiers followed by neither `(` nor `=`. A parenthesised group climbs the same way but spans several tokens, and the chain lemmas do not cover it. A call does not climb this way; see `Statements.CallOperandFoldsAtOnce`.
- Climbing.EqualStrengthFoldsLeft: operands are single tokens, as for `Chains.ClimbChain`.
- Climbing.TwoOperators: operands are single tokens, as for `Chains.ClimbChain`.
- Climbing.PairsFold: the right operands are single tokens, as for `Chains.ClimbChain`.
