/** The lexer as the parser sees it: a cursor over a token stream whose
    position the parse routines advance in place. */
module Lexing {
  import opened Tokens
  import opened Cursor

  class Lexer {
    const stream: Stream
    var pos: nat

    ghost predicate Valid()
      reads this
    {
      pos <= |stream.items|
    }

    constructor (stream: Stream)
      ensures Valid() && this.stream == stream && pos == 0
    {
      this.stream := stream;
      pos := 0;
    }

    /** The look-ahead token; nothing is consumed. */
    method Peek() returns (r: Peeked)
      requires Valid()
      ensures r == Cursor.Peek(stream, pos)
    {
      r := Cursor.Peek(stream, pos);
    }

    /** The look-ahead token, consumed when there is one. */
    method Next() returns (r: Peeked)
      requires Valid()
      modifies this
      ensures Valid() && r == Cursor.Peek(stream, old(pos))
      ensures pos == if r.Next? then old(pos) + 1 else old(pos)
    {
      r := Cursor.Peek(stream, pos);
      if r.Next? {
        pos := pos + 1;
      }
    }

    /** Consume a token of kind `k`, or fail. */
    method Expect(k: Kind) returns (r: Outcome<Token>)
      requires Valid()
      modifies this
      ensures Valid() && Agrees(r, Cursor.Expect(stream, old(pos), k), pos)
    {
      r := ExpectOneOf({k});
    }

    /** Consume a token whose kind is one of `ks`, or fail. */
    method ExpectOneOf(ks: set<Kind>) returns (r: Outcome<Token>)
      requires Valid()
      modifies this
      ensures Valid() && Agrees(r, Cursor.ExpectOneOf(stream, old(pos), ks), pos)
    {
      var peeked := Cursor.Peek(stream, pos);
      match peeked
      case AtEnd => r := Err(EndOfInput(stream));
      case Broken(d) => r := Err(Error(d));
      case Next(t) =>
        if t.kind in ks {
          pos := pos + 1;
          r := Ok(t);
        } else {
          r := Err(Error(Diagnostic(UnexpectedToken, t.loc)));
        }
    }
  }
}
