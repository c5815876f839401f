/** The parser's cursor over an immutable token sequence. */
module TokenStreams {
  import opened Wrappers
  import opened Tokens

  class TokenStream {
    /** Never modified after construction. */
    const tokens: seq<Token>
    var position: nat

    /** A new stream starts at the first token. */
    constructor (tokens: seq<Token>)
      ensures this.tokens == tokens && position == 0
    {
      this.tokens := tokens;
      position := 0;
    }

    /** The token `count` places ahead of the cursor, `None` past the end. */
    function Peek(count: nat): (r: Option<Token>)
      reads this
      ensures r == At(tokens, position + count)
      ensures r.Some? <==> position + count < |tokens|
    {
      At(tokens, position + count)
    }

    /** Returns the token under the cursor and advances the cursor by exactly `count`. */
    method Consume(count: nat) returns (r: Option<Token>)
      modifies this
      ensures position == old(position) + count
      ensures r == At(tokens, old(position))
    {
      var prevValue := position;
      position := position + count;
      r := At(tokens, prevValue);
    }

    /** Whether a token stands `count` places ahead of the cursor. */
    function HasNext(count: nat): (b: bool)
      reads this
      ensures b <==> Peek(count).Some?
    {
      position + count < |tokens|
    }

    function GetPosition(): (p: nat)
      reads this
      ensures p == position
    {
      position
    }

    /** Moves the cursor back (or forward) to `p`. */
    method SetPosition(p: nat)
      modifies this
      ensures position == p
    {
      position := p;
    }
  }
}
