/** Tokens as the lexer produces them and the parser reads them. */
module Tokens {
  import opened Wrappers

  /** The token kinds of the language. `For`, `Each` and `Colon` are used by the
      lexer table and the parser although the kinds file does not list them; here
      each is a kind of its own. */
  datatype TokenKind =
    | Text | String | WhiteSpace | Identifier | Number
    | ParenOpen | ParenClose | BraceOpen | BraceClose | SquareOpen | SquareClose
    | Or | And | Not | If | Then | Else | True | False
    | Equals | DoubleEquals | NotEquals | LessThanEqual | GreaterThanEqual
    | PlusEquals | MinusEquals | LessThan | GreaterThan
    | Dot | Is | Comma | In | Plus | Minus | Divide | Multiply | SemiColon | LineBreak
    | For | Each | Colon

  /** The payload of a token: the text it stands for, or the number a numeric
      literal denotes. */
  datatype TokenValue = TextValue(text: string) | NumberValue(number: int)

  datatype Token = Token(kind: TokenKind, value: TokenValue, position: nat)

  /** What a lexer error names. */
  datatype LexError =
    | UnknownCharacter(character: char)
    | UnterminatedString
    | MalformedToken(message: string)

  /** A number of characters a successful matcher consumes: always at least one. */
  type Positive = n: int | n > 0 witness 1

  /** A successful match: how much input it consumed, the token, and whether the
      token is to be dropped (white space). */
  datatype TokenResult = TokenResult(consumed: Positive, token: Token, skip: bool)

  /** What one matcher answers at one position: no match (`null`), a match, or
      a thrown error. */
  datatype MatchOutcome = NoMatch | Matched(result: TokenResult) | Fail(error: LexError)

  /** `tokens[i]` in a language where reading out of range gives `undefined`. */
  function At(tokens: seq<Token>, i: int): (r: Option<Token>)
    ensures r.Some? <==> 0 <= i < |tokens|
    ensures r.Some? ==> r.value == tokens[i]
  {
    if 0 <= i < |tokens| then Some(tokens[i]) else None
  }

  /** The decimal digit for 0 <= d < 10. */
  function Digit(d: nat): (c: char)
    requires d < 10
    ensures '0' <= c <= '9'
  {
    "0123456789"[d]
  }

  /** Decimal digits of a natural number, most significant first. */
  function NatDigits(n: nat): (s: string)
    ensures |s| > 0
    ensures forall i :: 0 <= i < |s| ==> '0' <= s[i] <= '9'
  {
    if n < 10 then [Digit(n)] else NatDigits(n / 10) + [Digit(n % 10)]
  }

  /** How a token value reads when it is used as a name: text as it is, a number
      in decimal. */
  function Spelling(v: TokenValue): (s: string)
    ensures v.TextValue? ==> s == v.text
    ensures v.NumberValue? ==> |s| > 0
  {
    match v
    case TextValue(t) => t
    case NumberValue(n) => if n < 0 then "-" + NatDigits(-n) else NatDigits(n)
  }
}
