/** The peek/next/expect cursor the parse routines pull tokens from, as pure
    functions of a stream and a position, and the outcomes of parsing.

    The lexer's own `peek`, `next`, `expect` and `expect_one_of` are not part
    of this model; they are stated here with the behaviour the parser relies
    on: a lexical error is reported when it is reached, a mismatching token
    is an "unexpected token" error at that token's span, and end of input is
    reported at the last byte of the source, as the parser's own identifier
    routine does.
 */
module Cursor {
  import opened Tokens

  datatype Lexeme = Lexed(token: Token) | LexError(at: Location)

  /** The tokens of one source text, and that text's length in bytes. */
  datatype Stream = Stream(items: seq<Lexeme>, sourceLen: nat)

  datatype ErrorKind =
    | Lexical          // passed through from the lexer
    | UnexpectedToken  // `expect` met another kind
    | UnexpectedEof    // a token was required at end of input
    | BadIdentifier    // an identifier position held something else

  /** A diagnostic: its kind and the labelled span. */
  datatype Diagnostic = Diagnostic(kind: ErrorKind, span: Location)

  /** The `todo!`, `unreachable!` and arithmetic-overflow stops of the parser. */
  datatype PanicSite =
    | EmptyInput          // parse_expression at end of input
    | MissingPrimary      // a primary expression needed at end of input
    | MissingInitializer  // end of input right after `=`
    | UnsupportedToken    // a token kind that starts no primary expression
    | UnsupportedOperator // an operator other than `(` in primary position
    | UnsupportedValue    // a value token that is neither literal nor identifier
    | SpanUnderflow       // end-of-file span of an empty source text

  datatype Failure = Error(diag: Diagnostic) | Panic(site: PanicSite)

  /** The result of a parse routine: what it built and the position after
      the tokens it consumed, or why it failed. */
  datatype Parsed<+T> = Done(result: T, next: nat) | Failed(failure: Failure)
  {
    function Propagate<U>(): Parsed<U>
      requires Failed?
    {
      Failed(failure)
    }
  }

  /** What a parse routine of the imperative parser returns; the position
      lives in the lexer. */
  datatype Outcome<+T> = Ok(value: T) | Err(failure: Failure)

  /** An outcome and a final cursor position agree with a reference parse. */
  predicate Agrees<T(==)>(o: Outcome<T>, r: Parsed<T>, pos: nat)
  {
    match r
    case Done(v, next) => o == Ok(v) && pos == next
    case Failed(f) => o == Err(f)
  }

  datatype Peeked = AtEnd | Next(token: Token) | Broken(diag: Diagnostic)

  function LocOf(x: Lexeme): Location
  {
    match x
    case Lexed(t) => t.loc
    case LexError(at) => at
  }

  /** The look-ahead token at position `p`, without consuming it. */
  function Peek(s: Stream, p: nat): (r: Peeked)
    requires p <= |s.items|
    ensures r.AtEnd? <==> p == |s.items|
    ensures r.Next? ==> s.items[p] == Lexed(r.token)
    ensures r.Broken? ==> r.diag == Diagnostic(Lexical, LocOf(s.items[p]))
  {
    if p == |s.items| then AtEnd
    else match s.items[p]
      case Lexed(t) => Next(t)
      case LexError(at) => Broken(Diagnostic(Lexical, at))
  }

  /** The failure reported when a token is required at end of input: the
      label covers the last byte of the source, `len - 1 .. len`; for an empty
      source that subtraction underflows. */
  function EndOfInput(s: Stream): (f: Failure)
    ensures s.sourceLen == 0 <==> f.Panic?
    ensures f.Error? ==> f.diag == Diagnostic(UnexpectedEof, Location(s.sourceLen - 1, s.sourceLen))
  {
    if s.sourceLen == 0 then Panic(SpanUnderflow)
    else Error(Diagnostic(UnexpectedEof, Location(s.sourceLen - 1, s.sourceLen)))
  }

  /** Consume the next token if it is of kind `k`. */
  function Expect(s: Stream, p: nat, k: Kind): (r: Parsed<Token>)
    requires p <= |s.items|
    ensures r.Done? <==> p < |s.items| && s.items[p].Lexed? && s.items[p].token.kind == k
    ensures r.Done? ==> r.next == p + 1 && s.items[p] == Lexed(r.result)
  {
    ExpectOneOf(s, p, {k})
  }

  /** Consume the next token if its kind is one of `ks`. */
  function ExpectOneOf(s: Stream, p: nat, ks: set<Kind>): (r: Parsed<Token>)
    requires p <= |s.items|
    ensures r.Done? <==> p < |s.items| && s.items[p].Lexed? && s.items[p].token.kind in ks
    ensures r.Done? ==> r.next == p + 1 && s.items[p] == Lexed(r.result)
    ensures p == |s.items| ==> r == Failed(EndOfInput(s))
  {
    match Peek(s, p)
    case AtEnd => Failed(EndOfInput(s))
    case Broken(d) => Failed(Error(d))
    case Next(t) =>
      if t.kind in ks then Done(t, p + 1)
      else Failed(Error(Diagnostic(UnexpectedToken, t.loc)))
  }
}
