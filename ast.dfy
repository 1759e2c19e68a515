/** The expression tree the parser builds. Every node carries the byte range
    of the whole construct it was parsed from. */
module Ast {
  import opened Tokens

  datatype Expression =
    | Ident(name: string, loc: Location)
    | IntLiteral(intValue: int, size: nat, loc: Location)
    | UintLiteral(uintValue: nat, size: nat, loc: Location)
    | FloatLiteral(floatBits: nat, size: nat, loc: Location)
    | Bool(boolValue: bool, loc: Location)
    | Block(expressions: seq<Expression>, loc: Location)
    | Var(mutable: bool, typ: Option<Expression>, name: string, value: Expression, loc: Location)
    | Assign(ident: Expression, value: Expression, loc: Location)
    | If(condition: Expression, truthy: Expression, falsy: seq<Expression>, loc: Location)
    | BinaryOp(lhs: Expression, operator: Operator, rhs: Expression, loc: Location)
    | FunCall(ident: Expression, arguments: seq<Expression>, loc: Location)
    | Return(value: Expression, loc: Location)

  /** `inner` lies within `outer`. */
  predicate Encloses(outer: Location, inner: Location)
  {
    outer.startByte <= inner.startByte && inner.endByte <= outer.endByte
  }

  /** The direct sub-expressions of a node, in source order. */
  function Children(e: Expression): (r: seq<Expression>)
    ensures forall i :: 0 <= i < |r| ==> r[i] < e
  {
    match e
    case Block(xs, _) => xs
    case Var(_, typ, _, value, _) => (if typ.Some? then [typ.value] else []) + [value]
    case Assign(ident, value, _) => [ident, value]
    case If(condition, truthy, falsy, _) => [condition, truthy] + falsy
    case BinaryOp(lhs, _, rhs, _) => [lhs, rhs]
    case FunCall(ident, arguments, _) => [ident] + arguments
    case Return(value, _) => [value]
    case _ => []
  }

  /** Every node's range is never reversed (`startByte <= endByte`), and
      every child's range lies within its parent's. */
  predicate WellLocated(e: Expression)
    decreases e
  {
    e.loc.startByte <= e.loc.endByte &&
    forall i :: 0 <= i < |Children(e)| ==>
      Encloses(e.loc, Children(e)[i].loc) && WellLocated(Children(e)[i])
  }
}
