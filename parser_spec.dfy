/** The parser as functions of the token sequence and a cursor position. Each
    function follows one routine of the recursive-descent parser (or one of its
    loops) branch for branch; the imperative parser is proved to compute
    exactly these results. On success a function returns the node and the
    position after it; a thrown parser error, or a read of a field of a token
    past the end, is a `Failure`. */
module ParserSpec {
  import opened Wrappers
  import opened Tokens
  import opened Ast

  /** The messages the parser throws, one per `throw` site. */
  datatype ErrorKind =
    | MissingThen
    | NothingBefore
    | NothingAfter
    | MismatchedParentheses
    | ConditionExpected
    | ComparatorExpected
    | AssignmentExpected
    | AssignmentOperatorExpected
    | ExpressionExpected
    | ConcatenationOperandExpected
    | IdentifierExpected
    | SquareCloseExpected
    | FunctionCallEndOfStream
    | ForEachInvalid
    | ForParenCloseExpected
    | ForInvalid
    | StringExpected
    | ColonExpected
    | ArrayExpected
    | MissingComma
    | ArrayElementExpected

  datatype ParseError =
    /** A thrown `ParserError` with the position of the offending token. */
    | ParserError(kind: ErrorKind, position: int)
    /** A field read on the `undefined` that the cursor yields past the end. */
    | ReadPastEnd

  /** A parsed value and the cursor position after it. */
  datatype Parsed<+T> = Parsed(value: T, next: nat)

  type Res<+T> = Result<Parsed<T>, ParseError>

  /** The Aggregate under construction in an arithmetic chain: its left
      operand and operator; its right operand is still to come. */
  datatype Chain = Chain(left: Node, operator: MathOperator)

  function MathOperatorOf(k: TokenKind): Option<MathOperator> {
    if k.Plus? then Some(MathOperator.Plus)
    else if k.Minus? then Some(MathOperator.Minus)
    else if k.Multiply? then Some(MathOperator.Multiply)
    else if k.Divide? then Some(MathOperator.Divide)
    else None
  }

  function ComparatorOf(k: TokenKind): Option<BooleanOperator> {
    if k.DoubleEquals? then Some(BooleanOperator.DoubleEquals)
    else if k.LessThan? then Some(BooleanOperator.LessThan)
    else if k.GreaterThan? then Some(BooleanOperator.GreaterThan)
    else if k.LessThanEqual? then Some(BooleanOperator.LessThanEqual)
    else if k.GreaterThanEqual? then Some(BooleanOperator.GreaterThanEqual)
    else if k.NotEquals? then Some(BooleanOperator.NotEquals)
    else if k.In? then Some(BooleanOperator.In)
    else None
  }

  function CombinatorOf(k: TokenKind): Option<BinaryOperator> {
    if k.Or? then Some(BinaryOperator.Or)
    else if k.And? then Some(BinaryOperator.And)
    else if k.Not? then Some(BinaryOperator.Not)
    else None
  }

  function AssignmentOf(k: TokenKind): Option<AssignmentOperator> {
    if k.Equals? then Some(AssignmentOperator.Equals)
    else if k.MinusEquals? then Some(AssignmentOperator.MinusEquals)
    else if k.PlusEquals? then Some(AssignmentOperator.PlusEquals)
    else None
  }

  /** The literal tokens a concatenation takes by their text. */
  predicate IsLiteral(k: TokenKind) {
    k.String? || k.Number? || k.True? || k.False?
  }

  /** The tokens after a term that make an expression re-parse as a condition
      (`in` is not among them). */
  predicate StartsCondition(k: TokenKind) {
    k.And? || k.Or? || k.Not? || k.DoubleEquals? || k.LessThan? ||
    k.LessThanEqual? || k.GreaterThan? || k.GreaterThanEqual? || k.NotEquals?
  }

  /** The tokens after the left operand of a condition that end it unpaired. */
  predicate EndsOperand(k: TokenKind) {
    k.And? || k.Or? || k.Not? || k.ParenClose?
  }

  /** The tokens a term of an expression can start with. */
  predicate StartsTerm(k: TokenKind) {
    k.String? || k.Number? || k.True? || k.False? || k.Identifier? || k.BraceOpen?
  }

  /** The tokens the top-level loop starts a statement at. */
  predicate StartsStatement(k: TokenKind) {
    k.If? || k.Identifier? || k.For?
  }

  /** A condition read left to right: its operands and the combinators
      between them, with the grouping forgotten. */
  datatype Piece = Operand(node: Node) | Joined(op: BinaryOperator)

  function Reading(n: Node): seq<Piece> {
    if n.BooleanExpressionGroup? then Reading(n.left) + [Joined(n.combinator)] + Reading(n.right)
    else [Operand(n)]
  }

  /** A new group for `prev op cond`. After an unparenthesised term, `and`
      takes the right operand of a preceding group and binds it to `cond`;
      this is what makes `and` bind tighter than `or`. Either way only the
      grouping changes: the new condition reads as `prev`, `op`, `cond`. */
  function Combine(prev: Node, op: BinaryOperator, cond: Node, prevInGroup: bool): (r: Node)
    ensures r.BooleanExpressionGroup?
    ensures Reading(r) == Reading(prev) + [Joined(op)] + Reading(cond)
    ensures r.left == prev <==> prevInGroup || op != BinaryOperator.And || !prev.BooleanExpressionGroup?
  {
    if !prevInGroup && op == BinaryOperator.And && prev.BooleanExpressionGroup? then
      BooleanExpressionGroup(prev.left, prev.combinator, BooleanExpressionGroup(prev.right, op, cond))
    else
      BooleanExpressionGroup(prev, op, cond)
  }

  /** The node an arithmetic chain ends in: the last Aggregate created, with
      `last` as its right operand (the earlier Aggregates are not returned). */
  function Finish(last: Node, chain: Option<Chain>): Node {
    match chain
    case None => last
    case Some(c) => Aggregate(c.left, c.operator, last)
  }

  //#region References

  /** parseReference: an identifier and its property path. */
  function ParseReference(ts: seq<Token>, pos: nat): (r: Res<Node>)
    requires pos <= |ts|
    decreases |ts| - pos, 2
    ensures r.Success? ==> pos < r.value.next <= |ts|
  {
    if pos == |ts| then Failure(ReadPastEnd)
    else
      var name := Spelling(ts[pos].value);
      if pos + 1 == |ts| then Success(Parsed(Node.Identifier(name), pos + 1))
      else
        match ReferenceSteps(ts, pos + 1, [])
        case Failure(e) => Failure(e)
        case Success(p) =>
          Success(Parsed(if |p.value| == 0 then Node.Identifier(name) else PropertyAccess(name, p.value), p.next))
  }

  /** The loop of parseReference: collect `.name` and `[expression]` steps. */
  function ReferenceSteps(ts: seq<Token>, pos: nat, steps: seq<Node>): (r: Res<seq<Node>>)
    requires pos <= |ts|
    decreases |ts| - pos, 0
    ensures r.Success? ==> pos <= r.value.next <= |ts|
  {
    if pos == |ts| then Success(Parsed(steps, pos))
    else
      if ts[pos].kind.Dot? then
        if pos + 1 == |ts| then Failure(ReadPastEnd)
        else if !ts[pos + 1].kind.Identifier? then Failure(ParserError(IdentifierExpected, ts[pos + 1].position))
        else ReferenceSteps(ts, pos + 2, steps + [Node.Identifier(Spelling(ts[pos + 1].value))])
      else if ts[pos].kind.SquareOpen? then
        match ParseExpression(ts, pos + 1)
        case Failure(e) => Failure(e)
        case Success(p) => IndexEnd(ts, p.next, steps, p.value)
      else Success(Parsed(steps, pos))
  }

  /** After the index expression of a `[...]` step: the closing `]`, then more steps. */
  function IndexEnd(ts: seq<Token>, pos: nat, steps: seq<Node>, index: Node): (r: Res<seq<Node>>)
    requires pos <= |ts|
    decreases |ts| - pos, 0
    ensures r.Success? ==> pos < r.value.next <= |ts|
  {
    if pos == |ts| then Failure(ReadPastEnd)
    else if !ts[pos].kind.SquareClose? then Failure(ParserError(SquareCloseExpected, ts[pos].position))
    else ReferenceSteps(ts, pos + 1, steps + [IndexAccess(index)])
  }

  //#endregion

  //#region Conditions

  /** parseBooleanExpression: a literal, a reference, or a comparison. */
  function ParseBooleanExpression(ts: seq<Token>, pos: nat): (r: Res<Node>)
    requires pos <= |ts|
    decreases |ts| - pos, 4
    ensures r.Success? ==> pos < r.value.next <= |ts|
  {
    if pos == |ts| then Failure(ReadPastEnd)
    else
      var tok := ts[pos];
      if tok.kind.True? then Success(Parsed(BooleanLiteral(true), pos + 1))
      else if tok.kind.False? then Success(Parsed(BooleanLiteral(false), pos + 1))
      else if tok.kind.String? then AfterOperand(ts, StringLiteral(tok.value), pos + 1)
      else if tok.kind.Number? then AfterOperand(ts, NumericLiteral(tok.value), pos + 1)
      else if tok.kind.Identifier? then
        match ParseReference(ts, pos)
        case Failure(e) => Failure(e)
        case Success(p) => AfterOperand(ts, p.value, p.next)
      else Failure(ParserError(ConditionExpected, tok.position))
  }

  /** What may follow the left operand of a condition: a comparator and a
      right operand, or (returning the operand alone) a combinator or `)`. */
  function AfterOperand(ts: seq<Token>, left: Node, pos: nat): (r: Res<Node>)
    requires 0 < pos <= |ts|
    decreases |ts| - pos, 4
    ensures r.Success? ==> pos <= r.value.next <= |ts|
  {
    if pos == |ts| then Success(Parsed(left, pos))
    else
      var next := ts[pos];
      match ComparatorOf(next.kind)
      case Some(op) =>
        (match ParseComparand(ts, pos + 1)
         case Failure(e) => Failure(e)
         case Success(p) => Success(Parsed(BooleanExpression(left, op, p.value), p.next)))
      case None =>
        if EndsOperand(next.kind) then Success(Parsed(left, pos))
        else Failure(ParserError(ComparatorExpected, next.position))
  }

  /** The right side of a comparison: a literal or a reference. */
  function ParseComparand(ts: seq<Token>, pos: nat): (r: Res<Node>)
    requires pos <= |ts|
    decreases |ts| - pos, 4
    ensures r.Success? ==> pos < r.value.next <= |ts|
  {
    if pos == |ts| then Failure(ReadPastEnd)
    else
      var tok := ts[pos];
      if tok.kind.String? then Success(Parsed(StringLiteral(tok.value), pos + 1))
      else if tok.kind.Number? then Success(Parsed(NumericLiteral(tok.value), pos + 1))
      else if tok.kind.True? then Success(Parsed(BooleanLiteral(true), pos + 1))
      else if tok.kind.False? then Success(Parsed(BooleanLiteral(false), pos + 1))
      else if tok.kind.Identifier? then ParseReference(ts, pos)
      else Failure(ParserError(ConditionExpected, tok.position))
  }

  /** How a combinator step keeps the "last term was a group" flag.
      `AsWritten` is parseBooleanExpressions as the code has it: before a `(`
      operand the flag is cleared before the steal is decided, and after a
      plain operand it is left as it was. `Corrected` decides the steal on the
      operand before the combinator and clears the flag afterwards, since the
      condition so far is then a combination, not a group. */
  datatype Rule = AsWritten | Corrected

  /** The flag the steal is decided on when the operand is a `(` group. */
  function FlagBeforeGroup(rule: Rule, prevInGroup: bool): bool {
    if rule.Corrected? then prevInGroup else false
  }

  /** The flag after a combinator and a plain operand. */
  function FlagAfterPlain(rule: Rule, prevInGroup: bool): bool {
    if rule.Corrected? then false else prevInGroup
  }

  /** parseBooleanExpressions: a condition built from terms, combinators and
      parentheses; `depth` is the count of open parentheses passed in. */
  function ParseBooleanExpressions(ts: seq<Token>, pos: nat, depth: int, rule: Rule): (r: Res<Node>)
    requires pos <= |ts|
    decreases |ts| - pos, 10
    ensures r.Success? ==> pos <= r.value.next <= |ts|
    ensures r.Success? && pos < |ts| && !ts[pos].kind.Then? ==> pos < r.value.next
  {
    BooleanLoop(ts, pos, depth, Missing, false, rule)
  }

  /** The loop of parseBooleanExpressions, with its state: the open-paren
      count, the condition so far (`Missing` before the first term), and
      whether the last term was a parenthesised group. */
  function BooleanLoop(ts: seq<Token>, pos: nat, depth: int, prev: Node, prevInGroup: bool, rule: Rule): (r: Res<Node>)
    requires pos <= |ts|
    decreases |ts| - pos, 8
    ensures r.Success? ==> pos <= r.value.next <= |ts|
    ensures r.Success? && pos < |ts| && !ts[pos].kind.Then? ==> pos < r.value.next
  {
    if pos == |ts| then Success(Parsed(prev, pos))
    else
      var tok := ts[pos];
      if CombinatorOf(tok.kind).Some? then Combinator(ts, pos, depth, prev, prevInGroup, rule)
      else if tok.kind.ParenOpen? then
        match ParseBooleanExpressions(ts, pos + 1, depth + 1, rule)
        case Failure(e) => Failure(e)
        case Success(p) => BooleanLoop(ts, p.next, depth + 1, p.value, true, rule)
      else if tok.kind.ParenClose? then
        if depth - 1 < 0 then Failure(ParserError(MismatchedParentheses, tok.position))
        else Success(Parsed(prev, pos + 1))
      else if tok.kind.Then? then Success(Parsed(prev, pos))
      else BooleanTerm(ts, pos, depth, rule)
  }

  /** The default case of the loop: a leaf condition replaces what came before. */
  function BooleanTerm(ts: seq<Token>, pos: nat, depth: int, rule: Rule): (r: Res<Node>)
    requires pos <= |ts|
    decreases |ts| - pos, 6
    ensures r.Success? ==> pos < r.value.next <= |ts|
  {
    match ParseBooleanExpression(ts, pos)
    case Failure(e) => Failure(e)
    case Success(p) => BooleanLoop(ts, p.next, depth, p.value, false, rule)
  }

  /** The state of parseBooleanExpressions's loop between tokens: the
      condition so far, the open-paren count, and whether the last term was a
      parenthesised group. */
  datatype CondState = CondState(prev: Node, depth: int, prevInGroup: bool)

  /** A combinator in the loop: step over it, then continue the loop. */
  function Combinator(ts: seq<Token>, pos: nat, depth: int, prev: Node, prevInGroup: bool, rule: Rule): (r: Res<Node>)
    requires pos < |ts| && CombinatorOf(ts[pos].kind).Some?
    decreases |ts| - pos, 4
    ensures r.Success? ==> pos < r.value.next <= |ts|
  {
    match CombinatorStep(ts, pos, CondState(prev, depth, prevInGroup), rule)
    case Failure(e) => Failure(e)
    case Success(p) => BooleanLoop(ts, p.next, p.value.depth, p.value.prev, p.value.prevInGroup, rule)
  }

  /** The combinator at `pos`, then a term or a parenthesised group, combined
      with the condition so far; `rule` says how the group flag is kept. */
  function CombinatorStep(ts: seq<Token>, pos: nat, st: CondState, rule: Rule): (r: Res<CondState>)
    requires pos < |ts| && CombinatorOf(ts[pos].kind).Some?
    decreases |ts| - pos, 2
    ensures r.Success? ==> pos < r.value.next <= |ts|
    ensures r.Success? ==> pos + 1 < |ts| && r.value.value.prev.BooleanExpressionGroup?
    ensures r.Success? && rule.AsWritten? && ts[pos].kind.And? && ts[pos + 1].kind.ParenOpen? && st.prev.BooleanExpressionGroup? ==> r.value.value.prev.left == st.prev.left
    ensures r.Success? && rule.AsWritten? && !ts[pos + 1].kind.ParenOpen? ==> r.value.value.prevInGroup == st.prevInGroup
    ensures r.Success? && rule.Corrected? ==> !r.value.value.prevInGroup
  {
    var tok := ts[pos];
    var op := CombinatorOf(tok.kind).value;
    if st.prev == Missing then Failure(ParserError(NothingBefore, tok.position))
    else if pos + 1 == |ts| then Failure(ParserError(NothingAfter, tok.position))
    else if ts[pos + 1].kind.ParenOpen? then
      match ParseBooleanExpressions(ts, pos + 2, st.depth + 1, rule)
      case Failure(e) => Failure(e)
      case Success(p) =>
        Success(Parsed(CondState(Combine(st.prev, op, p.value, FlagBeforeGroup(rule, st.prevInGroup)), st.depth + 1, false), p.next))
    else
      match ParseBooleanExpression(ts, pos + 1)
      case Failure(e) => Failure(e)
      case Success(p) =>
        Success(Parsed(CondState(Combine(st.prev, op, p.value, st.prevInGroup), st.depth, FlagAfterPlain(rule, st.prevInGroup)), p.next))
  }

  //#endregion

  //#region Expressions

  /** parseExpression. */
  function ParseExpression(ts: seq<Token>, pos: nat): (r: Res<Node>)
    requires pos <= |ts|
    decreases |ts| - pos, 14
    ensures r.Success? ==> pos < r.value.next <= |ts|
  {
    ExpressionLoop(ts, pos, None, None)
  }

  /** The loop of parseExpression: `last` is the term read last (`null`
      before the first) and `chain` the Aggregate awaiting its right operand. */
  function ExpressionLoop(ts: seq<Token>, pos: nat, last: Option<Node>, chain: Option<Chain>): (r: Res<Node>)
    requires pos <= |ts|
    decreases |ts| - pos, 12
    ensures r.Success? ==> pos <= r.value.next <= |ts|
    ensures r.Success? && last.None? ==> pos < r.value.next
  {
    if pos == |ts| then
      (match last
       case None => Failure(ReadPastEnd)
       case Some(t) => Success(Parsed(Finish(t, chain), pos)))
    else
      match ParseTerm(ts, pos)
      case Failure(e) => Failure(e)
      case Success(t) => AfterTerm(ts, pos, t.next, t.value, chain)
  }

  /** What follows a term that started at `start` and ended at `pos`: an
      arithmetic operator continues the chain, a token that starts a
      condition re-reads everything from `start` as one, anything else ends it. */
  function AfterTerm(ts: seq<Token>, start: nat, pos: nat, term: Node, chain: Option<Chain>): (r: Res<Node>)
    requires start < pos <= |ts| && StartsTerm(ts[start].kind)
    decreases |ts| - start, 11
    ensures r.Success? ==> start < r.value.next <= |ts|
  {
    if pos == |ts| then Success(Parsed(Finish(term, chain), pos))
    else
      match MathOperatorOf(ts[pos].kind)
      case Some(op) => ExpressionLoop(ts, pos + 1, Some(term), Some(Chain(term, op)))
      case None =>
        if StartsCondition(ts[pos].kind) then ParseBooleanExpressions(ts, start, 0, AsWritten)
        else Success(Parsed(Finish(term, chain), pos))
  }

  /** The term that starts each round of parseExpression's loop. */
  function ParseTerm(ts: seq<Token>, pos: nat): (r: Res<Node>)
    requires pos < |ts|
    decreases |ts| - pos, 6
    ensures r.Success? ==> pos < r.value.next <= |ts|
    ensures r.Success? ==> StartsTerm(ts[pos].kind)
  {
    var tok := ts[pos];
    if tok.kind.String? then ParseString(ts, pos)
    else if tok.kind.Number? then Success(Parsed(NumericLiteral(tok.value), pos + 1))
    else if tok.kind.True? then Success(Parsed(BooleanLiteral(true), pos + 1))
    else if tok.kind.False? then Success(Parsed(BooleanLiteral(false), pos + 1))
    else if tok.kind.Identifier? then
      if pos + 1 < |ts| && ts[pos + 1].kind.ParenOpen? then ParseFunctionCall(ts, pos)
      else ParseReference(ts, pos)
    else if tok.kind.BraceOpen? then ParseObject(ts, pos)
    else Failure(ParserError(ExpressionExpected, tok.position))
  }

  /** parseString: a string literal, or a concatenation when `+` follows. */
  function ParseString(ts: seq<Token>, pos: nat): (r: Res<Node>)
    requires pos <= |ts|
    decreases |ts| - pos, 4
    ensures r.Success? ==> pos < r.value.next <= |ts|
  {
    if pos == |ts| then Failure(ReadPastEnd)
    else
      var lit := StringLiteral(ts[pos].value);
      if pos + 1 == |ts| then Failure(ReadPastEnd)
      else if !ts[pos + 1].kind.Plus? then Success(Parsed(lit, pos + 1))
      else ConcatenationLoop(ts, pos + 1, [lit])
  }

  /** The loop of parseString: while a `+` and one more token follow, take
      the operand after the `+`. */
  function ConcatenationLoop(ts: seq<Token>, pos: nat, parts: seq<Node>): (r: Res<Node>)
    requires pos <= |ts|
    decreases |ts| - pos, 0
    ensures r.Success? ==> pos <= r.value.next <= |ts|
  {
    if pos + 1 >= |ts| then Success(Parsed(StringConcatenation(parts), pos))
    else if !ts[pos].kind.Plus? then Success(Parsed(StringConcatenation(parts), pos))
    else
      var operand := ts[pos + 1];
      if IsLiteral(operand.kind) then ConcatenationLoop(ts, pos + 2, parts + [StringLiteral(operand.value)])
      else if operand.kind.Identifier? then
        match ParseReference(ts, pos + 1)
        case Failure(e) => Failure(e)
        case Success(p) => ConcatenationLoop(ts, p.next, parts + [p.value])
      else Failure(ParserError(ConcatenationOperandExpected, operand.position))
  }

  /** parseFunctionCall: the name, `(`, and arguments up to `)`. */
  function ParseFunctionCall(ts: seq<Token>, pos: nat): (r: Res<Node>)
    requires pos + 1 < |ts|
    decreases |ts| - pos, 4
    ensures r.Success? ==> pos < r.value.next <= |ts|
    ensures r.Success? ==> r.value.value.FunctionCall? && r.value.value.name == Spelling(ts[pos].value)
  {
    ArgumentLoop(ts, pos + 2, Spelling(ts[pos].value), [])
  }

  /** The loop of parseFunctionCall; a comma after an argument is skipped
      when present, so a trailing comma is accepted. */
  function ArgumentLoop(ts: seq<Token>, pos: nat, name: string, parameters: seq<Node>): (r: Res<Node>)
    requires pos <= |ts|
    decreases |ts| - pos, 16
    ensures r.Success? ==> pos <= r.value.next <= |ts|
    ensures r.Success? ==> r.value.value.FunctionCall? && r.value.value.name == name
    ensures r.Success? ==> parameters <= r.value.value.parameters
  {
    if pos == |ts| then Success(Parsed(FunctionCall(name, parameters), pos))
    else if ts[pos].kind.ParenClose? then Success(Parsed(FunctionCall(name, parameters), pos + 1))
    else
      match ParseExpression(ts, pos)
      case Failure(e) => Failure(e)
      case Success(p) =>
        if p.next == |ts| then Failure(ParserError(FunctionCallEndOfStream, ts[pos].position))
        else if ts[p.next].kind.Comma? then ArgumentLoop(ts, p.next + 1, name, parameters + [p.value])
        else ArgumentLoop(ts, p.next, name, parameters + [p.value])
  }

  /** parseObject: `{ 'name': expression, ... }`. */
  function ParseObject(ts: seq<Token>, pos: nat): (r: Res<Node>)
    requires pos < |ts|
    decreases |ts| - pos, 4
    ensures r.Success? ==> pos < r.value.next <= |ts|
  {
    PropertyLoop(ts, pos + 1, [])
  }

  /** The loop of parseObject. A token other than `,` or `}` after a value is
      consumed and dropped. */
  function PropertyLoop(ts: seq<Token>, pos: nat, properties: seq<ObjectProperty>): (r: Res<Node>)
    requires pos <= |ts|
    decreases |ts| - pos, 2
    ensures r.Success? ==> pos <= r.value.next <= |ts|
  {
    if pos == |ts| then Success(Parsed(ObjectNode(properties), pos))
    else if ts[pos].kind.BraceClose? then Success(Parsed(ObjectNode(properties), pos + 1))
    else
      match ParseProperty(ts, pos)
      case Failure(e) => Failure(e)
      case Success(p) => PropertyEnd(ts, p.next, properties + [p.value])
  }

  /** One `"name": expression` entry of an object literal. */
  function ParseProperty(ts: seq<Token>, pos: nat): (r: Res<ObjectProperty>)
    requires pos < |ts|
    decreases |ts| - pos, 0
    ensures r.Success? ==> pos + 2 < r.value.next <= |ts|
  {
    var nameToken := ts[pos];
    if !nameToken.kind.String? then Failure(ParserError(StringExpected, nameToken.position))
    else if pos + 1 == |ts| then Failure(ReadPastEnd)
    else if !ts[pos + 1].kind.Colon? then Failure(ParserError(ColonExpected, ts[pos + 1].position))
    else
      match ParseExpression(ts, pos + 2)
      case Failure(e) => Failure(e)
      case Success(p) => Success(Parsed(ObjectProperty(Spelling(nameToken.value), p.value), p.next))
  }

  function PropertyEnd(ts: seq<Token>, pos: nat, properties: seq<ObjectProperty>): (r: Res<Node>)
    requires pos <= |ts|
    decreases |ts| - pos, 0
    ensures r.Success? ==> pos < r.value.next <= |ts|
  {
    if pos == |ts| then Failure(ReadPastEnd)
    else if ts[pos].kind.BraceClose? then Success(Parsed(ObjectNode(properties), pos + 1))
    else PropertyLoop(ts, pos + 1, properties)
  }

  //#endregion

  //#region Statements

  /** parseOperation: a function call, or a reference, an assignment operator and an expression. */
  function ParseOperation(ts: seq<Token>, pos: nat): (r: Res<Node>)
    requires pos <= |ts|
    decreases |ts| - pos, 6
    ensures r.Success? ==> pos < r.value.next <= |ts|
  {
    if pos + 1 < |ts| && ts[pos + 1].kind.ParenOpen? then ParseFunctionCall(ts, pos)
    else
      match ParseReference(ts, pos)
      case Failure(e) => Failure(e)
      case Success(ref) => Assignment(ts, ref.value, ref.next)
  }

  /** The part of an assignment after its target: the operator, then the expression. */
  function Assignment(ts: seq<Token>, target: Node, pos: nat): (r: Res<Node>)
    requires pos <= |ts|
    decreases |ts| - pos, 0
    ensures r.Success? ==> pos < r.value.next <= |ts|
  {
    if pos == |ts| then Failure(ParserError(AssignmentExpected, 0))
    else
      var tok := ts[pos];
      match AssignmentOf(tok.kind)
      case None => Failure(ParserError(AssignmentOperatorExpected, tok.position))
      case Some(op) =>
        match ParseExpression(ts, pos + 1)
        case Failure(e) => Failure(e)
        case Success(e) => Success(Parsed(Operation(target, op, e.value), e.next))
  }

  /** parseOperations: operations separated by `;`. */
  function ParseOperations(ts: seq<Token>, pos: nat): (r: Res<seq<Node>>)
    requires pos <= |ts|
    decreases |ts| - pos, 10
    ensures r.Success? ==> pos <= r.value.next <= |ts|
  {
    OperationLoop(ts, pos, [])
  }

  function OperationLoop(ts: seq<Token>, pos: nat, ops: seq<Node>): (r: Res<seq<Node>>)
    requires pos <= |ts|
    decreases |ts| - pos, 8
    ensures r.Success? ==> pos <= r.value.next <= |ts|
  {
    if pos == |ts| then Success(Parsed(ops, pos))
    else
      match ParseOperation(ts, pos)
      case Failure(e) => Failure(e)
      case Success(p) => OperationEnd(ts, p.next, ops + [p.value])
  }

  /** After an operation: a `;` continues the list, anything else ends it. */
  function OperationEnd(ts: seq<Token>, pos: nat, ops: seq<Node>): (r: Res<seq<Node>>)
    requires pos <= |ts|
    decreases |ts| - pos, 0
    ensures r.Success? ==> pos <= r.value.next <= |ts|
  {
    if pos == |ts| || !ts[pos].kind.SemiColon? then Success(Parsed(ops, pos))
    else OperationLoop(ts, pos + 1, ops)
  }

  /** parseIfStatement: `if` condition `then` operations, optionally `else` operations. */
  function ParseIfStatement(ts: seq<Token>, pos: nat): (r: Res<Node>)
    requires pos < |ts|
    ensures r.Success? ==> pos < r.value.next <= |ts|
  {
    match ParseBooleanExpressions(ts, pos + 1, 0, AsWritten)
    case Failure(e) => Failure(e)
    case Success(c) => IfBody(ts, c.value, c.next)
  }

  /** After the condition: `then` and the operations of the true branch. */
  function IfBody(ts: seq<Token>, cond: Node, pos: nat): (r: Res<Node>)
    requires pos <= |ts|
    ensures r.Success? ==> pos < r.value.next <= |ts|
  {
    if pos == |ts| then Failure(ReadPastEnd)
    else if !ts[pos].kind.Then? then Failure(ParserError(MissingThen, ts[pos].position))
    else
      match ParseOperations(ts, pos + 1)
      case Failure(e) => Failure(e)
      case Success(body) => IfElse(ts, cond, body.value, body.next)
  }

  /** After the true branch: an optional `else` and its operations. */
  function IfElse(ts: seq<Token>, cond: Node, body: seq<Node>, pos: nat): (r: Res<Node>)
    requires pos <= |ts|
    ensures r.Success? ==> pos <= r.value.next <= |ts|
  {
    if pos == |ts| || !ts[pos].kind.Else? then Success(Parsed(Branch(cond, body, None), pos))
    else
      match ParseOperations(ts, pos + 1)
      case Failure(e) => Failure(e)
      case Success(alt) => Success(Parsed(Branch(cond, body, Some(alt.value)), alt.next))
  }

  /** parseForLoop: `for each` a reference or an array literal, or `for (` count `)`, then operations. */
  function ParseForLoop(ts: seq<Token>, pos: nat): (r: Res<Node>)
    requires pos < |ts|
    ensures r.Success? ==> pos < r.value.next <= |ts|
  {
    if pos + 1 == |ts| then Failure(ReadPastEnd)
    else if ts[pos + 1].kind.Each? then ForEach(ts, pos + 2)
    else if ts[pos + 1].kind.ParenOpen? then ForCount(ts, pos + 2)
    else Failure(ParserError(ForInvalid, ts[pos + 1].position))
  }

  /** A `for each` loop after the `each`: a reference or an array literal, then the body. */
  function ForEach(ts: seq<Token>, pos: nat): (r: Res<Node>)
    requires pos <= |ts|
    ensures r.Success? ==> pos < r.value.next <= |ts|
  {
    if pos == |ts| then Failure(ReadPastEnd)
    else if ts[pos].kind.Identifier? then
      match ParseReference(ts, pos)
      case Failure(e) => Failure(e)
      case Success(ref) => ForBody(ts, ForLoopType.Each, NodeParameter(ref.value), ref.next)
    else if ts[pos].kind.SquareOpen? then
      match ParseArray(ts, pos)
      case Failure(e) => Failure(e)
      case Success(arr) => ForBody(ts, ForLoopType.Each, ArrayParameter(arr.value), arr.next)
    else Failure(ParserError(ForEachInvalid, ts[pos].position))
  }

  /** A counted `for (` expression `)` loop after the `(`. */
  function ForCount(ts: seq<Token>, pos: nat): (r: Res<Node>)
    requires pos <= |ts|
    ensures r.Success? ==> pos < r.value.next <= |ts|
  {
    match ParseExpression(ts, pos)
    case Failure(e) => Failure(e)
    case Success(count) =>
      if count.next == |ts| then Failure(ReadPastEnd)
      else if !ts[count.next].kind.ParenClose? then Failure(ParserError(ForParenCloseExpected, ts[count.next].position))
      else ForBody(ts, ForLoopType.For, NodeParameter(count.value), count.next + 1)
  }

  /** The operations of a loop whose header is already parsed. */
  function ForBody(ts: seq<Token>, loopType: ForLoopType, parameter: LoopParameter, pos: nat): (r: Res<Node>)
    requires pos <= |ts|
    ensures r.Success? ==> pos <= r.value.next <= |ts|
  {
    match ParseOperations(ts, pos)
    case Failure(e) => Failure(e)
    case Success(body) => Success(Parsed(ForLoop(loopType, parameter, body.value), body.next))
  }

  /** parseArray: `[` string and number tokens separated by commas `]`. */
  function ParseArray(ts: seq<Token>, pos: nat): (r: Res<seq<TokenValue>>)
    requires pos <= |ts|
    ensures r.Success? ==> pos < r.value.next <= |ts|
  {
    if pos == |ts| then Failure(ReadPastEnd)
    else if !ts[pos].kind.SquareOpen? then Failure(ParserError(ArrayExpected, ts[pos].position))
    else ArrayLoop(ts, pos + 1, [], false)
  }

  /** The loop of parseArray; `prevValue` records that the last token was a value. */
  function ArrayLoop(ts: seq<Token>, pos: nat, values: seq<TokenValue>, prevValue: bool): (r: Res<seq<TokenValue>>)
    requires pos <= |ts|
    decreases |ts| - pos
    ensures r.Success? ==> pos <= r.value.next <= |ts|
  {
    if pos == |ts| then Success(Parsed(values, pos))
    else
      var ref := ts[pos];
      if ref.kind.String? || ref.kind.Number? then
        if prevValue then Failure(ParserError(MissingComma, ref.position))
        else ArrayLoop(ts, pos + 1, values + [ref.value], true)
      else if ref.kind.Comma? then ArrayLoop(ts, pos + 1, values, false)
      else if ref.kind.SquareClose? then Success(Parsed(values, pos + 1))
      else Failure(ParserError(ArrayElementExpected, ref.position))
  }

  //#endregion

  //#region Program

  /** What the top-level loop of `parse` does: return the statements, throw,
      or loop forever at a statement start that is not `if`, an identifier or
      `for` (a line break among them), since it consumes nothing there. */
  datatype ProgramOutcome =
    | Program(statements: seq<Node>)
    | Failed(error: ParseError)
    | Diverges(at: nat)

  function ParseProgram(ts: seq<Token>): (r: ProgramOutcome)
    ensures ts == [] ==> r == Program([])
    ensures r.Diverges? ==> r.at < |ts| && !StartsStatement(ts[r.at].kind)
  {
    ProgramLoop(ts, 0, [])
  }

  /** The top-level loop from `pos`, with the statements parsed before it:
      they stay at the front of the program, and the loop stops for good only
      at a token that starts no statement. */
  function ProgramLoop(ts: seq<Token>, pos: nat, statements: seq<Node>): (r: ProgramOutcome)
    requires pos <= |ts|
    decreases |ts| - pos
    ensures r.Program? ==> statements <= r.statements
    ensures r.Diverges? ==> pos <= r.at < |ts| && !StartsStatement(ts[r.at].kind)
  {
    if pos == |ts| then Program(statements)
    else if !StartsStatement(ts[pos].kind) then Diverges(pos)
    else
      var r :=
        if ts[pos].kind.If? then ParseIfStatement(ts, pos)
        else if ts[pos].kind.Identifier? then ParseOperation(ts, pos)
        else ParseForLoop(ts, pos);
      match r
      case Failure(e) => Failed(e)
      case Success(p) => ProgramLoop(ts, p.next, statements + [p.value])
  }

  //#endregion
}
