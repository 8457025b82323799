/** The argument tokens of a tag and the combinators a tag's parser uses to
    consume them from the front. */
module TagTokens {
  import opened Values
  import FilterChains

  /** One argument token: its text, and the readings the lexer found for it (an identifier, a filter chain). */
  datatype Token = Token(text: string, isIdentifier: bool, chain: Option<FilterChains.FilterChain>)

  function UnexpectedToken(expected: string, t: Token): Error {
    Message("Unexpected token").Context("expected", expected).Context("found", t.text)
  }

  function UnexpectedArgument(t: Token): Error {
    Message("Unexpected argument").Context("found", t.text)
  }

  /** The source form of a tag with its arguments. */
  function TagMarkup(name: string, arguments: string): string {
    "{% " + name + " " + arguments + "%}"
  }

  /** The token read as an identifier. */
  function ExpectIdentifier(t: Token): (r: Result<string>)
    ensures r.Ok? <==> t.isIdentifier
    ensures r.Ok? ==> r.value == t.text
  {
    if t.isIdentifier then Ok(t.text) else Err(UnexpectedToken("identifier", t))
  }

  /** The token read as a filter chain. */
  function ExpectFilterChain(t: Token): (r: Result<FilterChains.FilterChain>)
    ensures r.Ok? <==> t.chain.Some?
    ensures r.Ok? ==> r.value == t.chain.value
  {
    if t.chain.Some? then Ok(t.chain.value) else Err(UnexpectedToken("filter chain", t))
  }

  /** The tokens of a tag's arguments not yet consumed. */
  class TagTokenIter {
    var rest: seq<Token>

    constructor (tokens: seq<Token>)
      ensures rest == tokens
    {
      rest := tokens;
    }

    /** Take the next token, failing with `msg` when there is none. */
    method ExpectNext(msg: string) returns (r: Result<Token>)
      modifies this
      ensures old(rest) == [] ==> r == Err(Message(msg)) && rest == []
      ensures old(rest) != [] ==> r == Ok(old(rest)[0]) && rest == old(rest)[1..]
    {
      if rest == [] {
        return Err(Message(msg));
      }
      r := Ok(rest[0]);
      rest := rest[1..];
    }

    /** Succeed only when no token is left; otherwise consume the first one left and report it. */
    method ExpectNothing() returns (r: Outcome)
      modifies this
      ensures old(rest) == [] ==> r == Done && rest == []
      ensures old(rest) != [] ==> r == Failed(UnexpectedArgument(old(rest)[0])) && rest == old(rest)[1..]
    {
      if rest == [] {
        return Done;
      }
      r := Failed(UnexpectedArgument(rest[0]));
      rest := rest[1..];
    }
  }
}
