/** Parser and engine together, on the program `$cost = 2` run against
    `{$cost: 0}`. */
module Pipeline {
  import opened Wrappers
  import opened Tokens
  import opened Ast
  import ParserSpec
  import Runtime

  /** The tokens of `$cost = 2`. */
  const CostTokens: seq<Token> :=
    [Token(TokenKind.Identifier, TextValue("$cost"), 0), Token(TokenKind.Equals, TextValue("="), 6), Token(Number, NumberValue(2), 8)]

  /** `$cost = 2` parses to one assignment of the number 2 to `$cost`, and
      running it against `{$cost: 0}` leaves `{$cost: 2}`. */
  lemma CostExample()
    ensures ParserSpec.ParseProgram(CostTokens)
            == ParserSpec.Program([Operation(Node.Identifier("$cost"), AssignmentOperator.Equals, NumericLiteral(NumberValue(2)))])
    ensures Runtime.Run(map["$cost" := Runtime.Num(0)], ParserSpec.ParseProgram(CostTokens).statements)
            == (map["$cost" := Runtime.Num(2)], Runtime.Done)
  {
    var ts := CostTokens;
    var target := Node.Identifier("$cost");
    var two := NumericLiteral(NumberValue(2));
    var op := Operation(target, AssignmentOperator.Equals, two);
    assert ParserSpec.ReferenceSteps(ts, 1, []) == Success(ParserSpec.Parsed([], 1));
    assert ParserSpec.ParseReference(ts, 0) == Success(ParserSpec.Parsed(target, 1));
    assert ParserSpec.ParseTerm(ts, 2) == Success(ParserSpec.Parsed(two, 3));
    assert ParserSpec.ParseExpression(ts, 2) == Success(ParserSpec.Parsed(two, 3));
    assert ParserSpec.ParseOperation(ts, 0) == Success(ParserSpec.Parsed(op, 3));
    assert ParserSpec.ProgramLoop(ts, 0, []) == ParserSpec.ProgramLoop(ts, 3, [op]);
    assert map["$cost" := Runtime.Num(0)]["$cost" := Runtime.Num(2)] == map["$cost" := Runtime.Num(2)];
  }
}
