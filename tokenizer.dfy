/** The lexer driver: an ordered table of matchers tried at every position. */
module Tokenizer {
  import opened Wrappers
  import opened Tokens
  import StringTokenizer

  /** One entry of the matcher table. Only the string matcher's code is part of
      this model; every other kind is described by its constructor arguments and
      answered by an `Environment`. */
  datatype Matcher =
    | PatternMatcher(kind: TokenKind, name: string, pattern: string, skip: bool)
    | BraceMatcher(kind: TokenKind, text: string)
    | NumberMatcher
    | StringMatcher
    | SymbolMatcher(kind: TokenKind, text: string)
    | WordMatcher(kind: TokenKind, text: string)
    | IdentifierMatcher

  /** How the matchers whose code is not modelled answer at a position. Its only
      contract is the one the types carry: a match consumes at least one character. */
  type Environment = (Matcher, string, nat) -> MatchOutcome

  /** The table in the order the lexer's constructor builds it (45 entries;
      the `true`/`false` word matchers appear twice). */
  const Table: seq<Matcher> := [
    PatternMatcher(WhiteSpace, "White Space", "\\s", true),
    PatternMatcher(LineBreak, "Line Break", "[\\r\\n]", false),
    BraceMatcher(ParenOpen, "("),
    BraceMatcher(ParenClose, ")"),
    BraceMatcher(BraceOpen, "{"),
    BraceMatcher(BraceClose, "}"),
    BraceMatcher(SquareOpen, "["),
    BraceMatcher(SquareClose, "]"),
    NumberMatcher,
    StringMatcher,
    BraceMatcher(Comma, ","),
    SymbolMatcher(NotEquals, "!="),
    SymbolMatcher(Not, "!"),
    SymbolMatcher(DoubleEquals, "=="),
    SymbolMatcher(Equals, "="),
    SymbolMatcher(LessThan, "<"),
    SymbolMatcher(GreaterThan, ">"),
    SymbolMatcher(GreaterThanEqual, ">="),
    SymbolMatcher(LessThanEqual, "<="),
    SymbolMatcher(PlusEquals, "+="),
    SymbolMatcher(MinusEquals, "-="),
    SymbolMatcher(Plus, "+"),
    SymbolMatcher(Minus, "-"),
    SymbolMatcher(Divide, "/"),
    SymbolMatcher(Multiply, "*"),
    SymbolMatcher(SemiColon, ";"),
    SymbolMatcher(Colon, ":"),
    SymbolMatcher(Dot, "."),
    SymbolMatcher(And, "&&"),
    WordMatcher(And, "and"),
    SymbolMatcher(Or, "||"),
    WordMatcher(Or, "or"),
    WordMatcher(Not, "not"),
    WordMatcher(If, "if"),
    WordMatcher(Then, "then"),
    WordMatcher(Else, "else"),
    WordMatcher(True, "true"),
    WordMatcher(False, "false"),
    WordMatcher(Is, "is"),
    WordMatcher(In, "in"),
    WordMatcher(For, "for"),
    WordMatcher(Each, "each"),
    WordMatcher(True, "true"),
    WordMatcher(False, "false"),
    IdentifierMatcher
  ]

  /** One matcher's answer: the string matcher runs its own code, the others
      are answered by the environment. */
  function Apply(env: Environment, m: Matcher, input: string, pos: nat): MatchOutcome {
    if m.StringMatcher? then StringTokenizer.NextStringToken(input, pos) else env(m, input, pos)
  }

  /** The index of the first matcher, from `i` on, that does not answer "no match". */
  function FirstMatch(env: Environment, ms: seq<Matcher>, input: string, pos: nat, i: nat): (r: Option<nat>)
    requires i <= |ms|
    decreases |ms| - i
    ensures r.Some? ==> i <= r.value < |ms| && !Apply(env, ms[r.value], input, pos).NoMatch?
    ensures r.Some? ==> forall j :: i <= j < r.value ==> Apply(env, ms[j], input, pos).NoMatch?
    ensures r.None? ==> forall j :: i <= j < |ms| ==> Apply(env, ms[j], input, pos).NoMatch?
  {
    if i == |ms| then None
    else if !Apply(env, ms[i], input, pos).NoMatch? then Some(i)
    else FirstMatch(env, ms, input, pos, i + 1)
  }

  /** The lexer from position `pos` on, with `acc` the tokens emitted so far. */
  function TokenizeFrom(env: Environment, ms: seq<Matcher>, input: string, pos: nat, acc: seq<Token>): (r: Result<seq<Token>, LexError>)
    decreases |input| - pos
    ensures r.Success? && pos <= |input| ==> |r.value| <= |acc| + (|input| - pos)
    ensures r.Success? ==> |acc| <= |r.value|
  {
    if pos >= |input| then Success(acc)
    else
      match FirstMatch(env, ms, input, pos, 0)
      case None => Failure(UnknownCharacter(input[pos]))
      case Some(k) =>
        match Apply(env, ms[k], input, pos)
        case Fail(e) => Failure(e)
        case Matched(res) =>
          TokenizeFrom(env, ms, input, pos + res.consumed, if res.skip then acc else acc + [res.token])
  }

  /** Empty input gives no tokens. */
  lemma EmptyInput(env: Environment, ms: seq<Matcher>)
    ensures TokenizeFrom(env, ms, "", 0, []) == Success([])
  {
  }

  /** One step of the driver: the first matcher that answers decides; a match
      moves the cursor by exactly what it consumed and emits its token unless
      it is skipped. */
  lemma Step(env: Environment, ms: seq<Matcher>, input: string, pos: nat, acc: seq<Token>, k: nat, res: TokenResult)
    requires pos < |input|
    requires FirstMatch(env, ms, input, pos, 0) == Some(k)
    requires Apply(env, ms[k], input, pos) == Matched(res)
    ensures forall j :: 0 <= j < k ==> Apply(env, ms[j], input, pos).NoMatch?
    ensures res.skip ==> TokenizeFrom(env, ms, input, pos, acc) == TokenizeFrom(env, ms, input, pos + res.consumed, acc)
    ensures !res.skip ==> TokenizeFrom(env, ms, input, pos, acc) == TokenizeFrom(env, ms, input, pos + res.consumed, acc + [res.token])
  {
  }

  /** A position no matcher accepts stops the lexer with an error naming the
      character there, and no tokens are returned. */
  lemma NoMatcherAccepts(env: Environment, ms: seq<Matcher>, input: string, pos: nat, acc: seq<Token>)
    requires pos < |input|
    requires forall j :: 0 <= j < |ms| ==> Apply(env, ms[j], input, pos).NoMatch?
    ensures TokenizeFrom(env, ms, input, pos, acc) == Failure(UnknownCharacter(input[pos]))
  {
  }

  /** Tokens already emitted are kept, in order, at the front of the result:
      the lexer only ever appends. */
  lemma {:induction false} OnlyAppends(env: Environment, ms: seq<Matcher>, input: string, pos: nat, acc: seq<Token>)
    ensures TokenizeFrom(env, ms, input, pos, acc).Success? ==>
      var out := TokenizeFrom(env, ms, input, pos, acc).value;
      |acc| <= |out| && out[..|acc|] == acc
    decreases |input| - pos
  {
    if pos < |input| {
      match FirstMatch(env, ms, input, pos, 0)
      case None =>
      case Some(k) =>
        match Apply(env, ms[k], input, pos)
        case NoMatch =>
        case Fail(_) =>
        case Matched(res) =>
          var acc' := if res.skip then acc else acc + [res.token];
          OnlyAppends(env, ms, input, pos + res.consumed, acc');
          if TokenizeFrom(env, ms, input, pos, acc).Success? {
            var out := TokenizeFrom(env, ms, input, pos, acc).value;
            assert out[..|acc'|] == acc';
            assert out[..|acc|] == acc'[..|acc|];
          }
    }
  }

  /** A matcher that repeats an earlier entry of the table is never the one
      selected: the earlier entry answers the same and is tried first. */
  lemma Shadowed(env: Environment, ms: seq<Matcher>, input: string, pos: nat, j: nat, k: nat)
    requires j < k < |ms| && ms[j] == ms[k]
    ensures FirstMatch(env, ms, input, pos, 0) != Some(k)
  {
  }

  /** The table's layout: 45 entries, the string matcher tenth, and the
      identifier matcher last, after every word. */
  lemma TableLayout()
    ensures |Table| == 45 && Table[9] == StringMatcher && Table[44] == IdentifierMatcher
  {
  }

  /** `!=` is tried before `!`, so the longer symbol is found first. */
  lemma NegationOrder()
    ensures Table[11].text == "!=" && Table[12].text == "!"
  {
  }

  /** `>` is tried before `>=`: which of the two the symbol matcher lets
      win is not part of this model. */
  lemma GreaterOrder()
    ensures Table[16].text == ">" && Table[17].text == ">="
  {
  }

  /** In the lexer's table the second `true` and `false` word matchers can never win. */
  lemma DuplicateWordsNeverSelected(env: Environment, input: string, pos: nat)
    ensures FirstMatch(env, Table, input, pos, 0) != Some(42)
    ensures FirstMatch(env, Table, input, pos, 0) != Some(43)
  {
    assert Table[36] == Table[42] && Table[37] == Table[43];
    Shadowed(env, Table, input, pos, 36, 42);
    Shadowed(env, Table, input, pos, 37, 43);
  }

  class Lexer {
    const matchers: seq<Matcher>
    const env: Environment

    constructor (env: Environment)
      ensures matchers == Table && this.env == env
    {
      matchers := Table;
      this.env := env;
    }

    /** The driver loop: at each position try every matcher in order, take the
        first answer, advance by what it consumed, keep the token unless it is
        skipped; fail on a position no matcher accepts. */
    method Tokenize(input: string) returns (r: Result<seq<Token>, LexError>)
      ensures r == TokenizeFrom(env, matchers, input, 0, [])
    {
      var toReturn: seq<Token> := [];
      var currentPos: nat := 0;
      while currentPos < |input|
        invariant TokenizeFrom(env, matchers, input, currentPos, toReturn) == TokenizeFrom(env, matchers, input, 0, [])
        decreases |input| - currentPos
      {
        var tokenized := false;
        var found: Option<TokenResult> := None;
        for i := 0 to |matchers|
          invariant FirstMatch(env, matchers, input, currentPos, 0) == FirstMatch(env, matchers, input, currentPos, i)
        {
          var res: MatchOutcome;
          if matchers[i].StringMatcher? {
            res := StringTokenizer.NextToken(input, currentPos);
          } else {
            res := env(matchers[i], input, currentPos);
          }
          if res.Fail? {
            return Failure(res.error);
          }
          if res.Matched? {
            found := Some(res.result);
            tokenized := true;
            break;
          }
        }
        if !tokenized {
          return Failure(UnknownCharacter(input[currentPos]));
        }
        var res := found.value;
        currentPos := currentPos + res.consumed;
        if !res.skip {
          toReturn := toReturn + [res.token];
        }
      }
      return Success(toReturn);
    }
  }
}
