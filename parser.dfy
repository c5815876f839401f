/** The recursive-descent parser as it runs: each method reads and advances a
    shared `TokenStream`, as the parser's private routines do, and is proved
    to return exactly what the corresponding function of `ParserSpec`
    describes and to leave the cursor where that function says. A thrown
    error is a `Failure` result that every caller passes straight on. */
module Parser {
  import opened Wrappers
  import opened Tokens
  import opened Ast
  import opened ParserSpec
  import opened TokenStreams

  /** A routine's result paired with the cursor position it leaves behind,
      in the form the specification functions answer in. (After an error the
      cursor is of no interest.) */
  function WithCursor<T>(r: Result<T, ParseError>, position: nat): Res<T> {
    match r
    case Success(v) => Success(Parsed(v, position))
    case Failure(e) => Failure(e)
  }

  //#region Program

  /** parse: statements until the tokens run out. A statement start other
      than `if`, an identifier or `for` makes the source loop forever, so
      such token sequences are excluded. */
  method Parse(tokens: seq<Token>) returns (r: Result<seq<Node>, ParseError>)
    requires !ParseProgram(tokens).Diverges?
    ensures ParseProgram(tokens).Program? ==> r == Success(ParseProgram(tokens).statements)
    ensures ParseProgram(tokens).Failed? ==> r == Failure(ParseProgram(tokens).error)
  {
    var stream := new TokenStream(tokens);
    var sequence: seq<Node> := [];
    while stream.HasNext(0)
      invariant stream.tokens == tokens && stream.position <= |tokens|
      invariant ProgramLoop(tokens, stream.position, sequence) == ParseProgram(tokens)
      decreases |tokens| - stream.position
    {
      var currentToken := stream.Peek(0).value;
      var node: Result<Node, ParseError> := Failure(ReadPastEnd);
      if currentToken.kind.If? {
        node := ParseIfStatement(stream);
      } else if currentToken.kind.Identifier? {
        node := ParseOperation(stream);
      } else if currentToken.kind.For? {
        node := ParseForLoop(stream);
      } else {
        assert false;
      }
      if node.Failure? {
        return Failure(node.error);
      }
      sequence := sequence + [node.value];
    }
    return Success(sequence);
  }

  //#endregion

  //#region Conditionals

  method ParseIfStatement(s: TokenStream) returns (r: Result<Node, ParseError>)
    requires s.position < |s.tokens|
    modifies s
    ensures ParserSpec.ParseIfStatement(s.tokens, old(s.position)) == WithCursor(r, s.position)
  {
    ghost var ts, spec := s.tokens, ParserSpec.ParseIfStatement(s.tokens, s.position);
    var _ := s.Consume(1);
    var conds := ParseBooleanExpressions(s, 0);
    if conds.Failure? {
      return Failure(conds.error);
    }
    assert spec == IfBody(ts, conds.value, s.position);
    r := ParseIfBody(s, conds.value);
  }

  /** The `then` keyword and the operations of an `if` whose condition is already parsed. */
  method ParseIfBody(s: TokenStream, condition: Node) returns (r: Result<Node, ParseError>)
    requires s.position <= |s.tokens|
    modifies s
    ensures IfBody(s.tokens, condition, old(s.position)) == WithCursor(r, s.position)
  {
    ghost var ts, spec := s.tokens, IfBody(s.tokens, condition, s.position);
    var currentToken := s.Consume(1);
    if currentToken.None? {
      return Failure(ReadPastEnd);
    }
    if !currentToken.value.kind.Then? {
      return Failure(ParserError(MissingThen, currentToken.value.position));
    }
    var body := ParseOperations(s);
    if body.Failure? {
      return Failure(body.error);
    }
    assert spec == IfElse(ts, condition, body.value, s.position);
    r := ParseIfElse(s, condition, body.value);
  }

  /** The optional `else` part of an `if` whose condition and body are already parsed. */
  method ParseIfElse(s: TokenStream, condition: Node, body: seq<Node>) returns (r: Result<Node, ParseError>)
    requires s.position <= |s.tokens|
    modifies s
    ensures IfElse(s.tokens, condition, body, old(s.position)) == WithCursor(r, s.position)
  {
    if !s.HasNext(0) || !s.Peek(0).value.kind.Else? {
      return Success(Branch(condition, body, None));
    }
    ghost var ts, spec := s.tokens, IfElse(s.tokens, condition, body, s.position);
    var _ := s.Consume(1);
    ghost var altSpec := ParserSpec.ParseOperations(ts, s.position);
    assert spec == match altSpec
                   case Failure(e) => Failure(e)
                   case Success(alt) => Success(Parsed(Branch(condition, body, Some(alt.value)), alt.next));
    var alternative := ParseOperations(s);
    if alternative.Failure? {
      return Failure(alternative.error);
    }
    return Success(Branch(condition, body, Some(alternative.value)));
  }

  method ParseBooleanExpressions(s: TokenStream, depth: int) returns (r: Result<Node, ParseError>)
    requires s.position <= |s.tokens|
    modifies s
    decreases |s.tokens| - s.position, 5
    ensures ParserSpec.ParseBooleanExpressions(s.tokens, old(s.position), depth, AsWritten) == WithCursor(r, s.position)
  {
    var parenOpen := depth;
    var prevNode := Missing;
    var finished := false;
    var prevInGroup := false;
    while s.HasNext(0) && !finished
      invariant old(s.position) <= s.position <= |s.tokens|
      invariant ParserSpec.ParseBooleanExpressions(s.tokens, old(s.position), depth, AsWritten)
             == if finished then Success(Parsed(prevNode, s.position))
                else BooleanLoop(s.tokens, s.position, parenOpen, prevNode, prevInGroup, AsWritten)
      decreases |s.tokens| - s.position, if finished then 0 else 1
    {
      var currentToken := s.Peek(0).value;
      ghost var pos := s.position;
      ghost var spec := BooleanLoop(s.tokens, pos, parenOpen, prevNode, prevInGroup, AsWritten);
      if currentToken.kind.Or? || currentToken.kind.And? || currentToken.kind.Not? {
        var step := ParseCombinator(s, CondState(prevNode, parenOpen, prevInGroup));
        if step.Failure? {
          return Failure(step.error);
        }
        prevNode, parenOpen, prevInGroup := step.value.prev, step.value.depth, step.value.prevInGroup;
      } else if currentToken.kind.ParenOpen? {
        parenOpen := parenOpen + 1;
        var _ := s.Consume(1);
        var group := ParseBooleanExpressions(s, parenOpen);
        if group.Failure? {
          return Failure(group.error);
        }
        prevNode := group.value;
        prevInGroup := true;
      } else if currentToken.kind.ParenClose? {
        parenOpen := parenOpen - 1;
        var _ := s.Consume(1);
        finished := true;
        if parenOpen < 0 {
          return Failure(ParserError(MismatchedParentheses, currentToken.position));
        }
      } else if currentToken.kind.Then? {
        finished := true;
      } else {
        assert spec == BooleanTerm(s.tokens, pos, parenOpen, AsWritten);
        var term := ParseBooleanExpression(s);
        if term.Failure? {
          return Failure(term.error);
        }
        prevNode := term.value;
        prevInGroup := false;
      }
    }
    return Success(prevNode);
  }

  /** One combinator of parseBooleanExpressions's loop, with the term or
      the parenthesised group after it, combined with the condition so far. */
  method ParseCombinator(s: TokenStream, st: CondState) returns (r: Result<CondState, ParseError>)
    requires s.position < |s.tokens| && CombinatorOf(s.tokens[s.position].kind).Some?
    modifies s
    decreases |s.tokens| - s.position, 1
    ensures CombinatorStep(s.tokens, old(s.position), st, AsWritten) == WithCursor(r, s.position)
  {
    var prevNode, parenOpen, prevInGroup := st.prev, st.depth, st.prevInGroup;
    var consumed := s.Consume(1);
    var currentToken := consumed.value;
    var operator := CombinatorOf(currentToken.kind).value;
    if prevNode == Missing {
      return Failure(ParserError(NothingBefore, currentToken.position));
    }
    var nextToken := s.Peek(0);
    if nextToken.None? {
      return Failure(ParserError(NothingAfter, currentToken.position));
    }
    var newCond: Result<Node, ParseError>;
    if nextToken.value.kind.ParenOpen? {
      var _ := s.Consume(1);
      parenOpen := parenOpen + 1;
      prevInGroup := false;
      newCond := ParseBooleanExpressions(s, parenOpen);
    } else {
      newCond := ParseBooleanExpression(s);
    }
    if newCond.Failure? {
      return Failure(newCond.error);
    }
    if !prevInGroup && currentToken.kind.And? && prevNode.BooleanExpressionGroup? {
      // `a or b and c`: the new group takes `b` from the previous one
      var newGroup := BooleanExpressionGroup(prevNode.right, operator, newCond.value);
      prevNode := BooleanExpressionGroup(prevNode.left, prevNode.combinator, newGroup);
    } else {
      prevNode := BooleanExpressionGroup(prevNode, operator, newCond.value);
    }
    return Success(CondState(prevNode, parenOpen, prevInGroup));
  }

  method ParseBooleanExpression(s: TokenStream) returns (r: Result<Node, ParseError>)
    requires s.position <= |s.tokens|
    modifies s
    decreases |s.tokens| - s.position, 2
    ensures ParserSpec.ParseBooleanExpression(s.tokens, old(s.position)) == WithCursor(r, s.position)
  {
    ghost var ts, p0 := s.tokens, s.position;
    var currentToken := s.Peek(0);
    if currentToken.None? {
      return Failure(ReadPastEnd);
    }
    var left: Node;
    var kind := currentToken.value.kind;
    if kind.String? {
      var _ := s.Consume(1);
      left := StringLiteral(currentToken.value.value);
    } else if kind.Number? {
      var _ := s.Consume(1);
      left := NumericLiteral(currentToken.value.value);
    } else if kind.True? {
      var _ := s.Consume(1);
      return Success(BooleanLiteral(true));
    } else if kind.False? {
      var _ := s.Consume(1);
      return Success(BooleanLiteral(false));
    } else if kind.Identifier? {
      var reference := ParseReference(s);
      if reference.Failure? {
        return Failure(reference.error);
      }
      left := reference.value;
    } else {
      return Failure(ParserError(ConditionExpected, currentToken.value.position));
    }
    assert ParserSpec.ParseBooleanExpression(ts, p0) == AfterOperand(ts, left, s.position);
    r := ParseAfterOperand(s, left);
  }

  /** After the left operand of a condition: a comparator and its right side,
      or a token that may end the condition. */
  method ParseAfterOperand(s: TokenStream, left: Node) returns (r: Result<Node, ParseError>)
    requires 0 < s.position <= |s.tokens|
    modifies s
    decreases |s.tokens| - s.position, 2
    ensures AfterOperand(s.tokens, left, old(s.position)) == WithCursor(r, s.position)
  {
    if !s.HasNext(0) {
      return Success(left);
    }
    var nextToken := s.Peek(0).value;
    var comparator := ComparatorOf(nextToken.kind);
    if comparator.None? {
      if EndsOperand(nextToken.kind) {
        return Success(left);
      }
      return Failure(ParserError(ComparatorExpected, nextToken.position));
    }
    var _ := s.Consume(1);
    var right := ParseComparand(s);
    if right.Failure? {
      return Failure(right.error);
    }
    return Success(BooleanExpression(left, comparator.value, right.value));
  }

  /** The right side of a comparison: a literal or a reference. */
  method ParseComparand(s: TokenStream) returns (r: Result<Node, ParseError>)
    requires s.position <= |s.tokens|
    modifies s
    decreases |s.tokens| - s.position, 2
    ensures ParserSpec.ParseComparand(s.tokens, old(s.position)) == WithCursor(r, s.position)
  {
    var currentToken := s.Peek(0);
    if currentToken.None? {
      return Failure(ReadPastEnd);
    }
    var kind := currentToken.value.kind;
    if kind.String? {
      var _ := s.Consume(1);
      r := Success(StringLiteral(currentToken.value.value));
    } else if kind.Number? {
      var _ := s.Consume(1);
      r := Success(NumericLiteral(currentToken.value.value));
    } else if kind.True? {
      var _ := s.Consume(1);
      r := Success(BooleanLiteral(true));
    } else if kind.False? {
      var _ := s.Consume(1);
      r := Success(BooleanLiteral(false));
    } else if kind.Identifier? {
      r := ParseReference(s);
    } else {
      r := Failure(ParserError(ConditionExpected, currentToken.value.position));
    }
  }

  method ParseOperations(s: TokenStream) returns (r: Result<seq<Node>, ParseError>)
    requires s.position <= |s.tokens|
    modifies s
    decreases |s.tokens| - s.position, 5
    ensures ParserSpec.ParseOperations(s.tokens, old(s.position)) == WithCursor(r, s.position)
  {
    ghost var ts, spec := s.tokens, ParserSpec.ParseOperations(s.tokens, s.position);
    var ops: seq<Node> := [];
    while s.HasNext(0)
      invariant old(s.position) <= s.position <= |ts|
      invariant spec == OperationLoop(ts, s.position, ops)
      decreases |ts| - s.position
    {
      var op := ParseOperation(s);
      if op.Failure? {
        return Failure(op.error);
      }
      ops := ops + [op.value];
      assert spec == OperationEnd(ts, s.position, ops);
      if !s.HasNext(0) || !s.Peek(0).value.kind.SemiColon? {
        break;
      }
      var _ := s.Consume(1);
    }
    return Success(ops);
  }

  method ParseOperation(s: TokenStream) returns (r: Result<Node, ParseError>)
    requires s.position <= |s.tokens|
    modifies s
    decreases |s.tokens| - s.position, 3
    ensures ParserSpec.ParseOperation(s.tokens, old(s.position)) == WithCursor(r, s.position)
  {
    ghost var ts, spec := s.tokens, ParserSpec.ParseOperation(s.tokens, s.position);
    var nextToken := s.Peek(1);
    if s.HasNext(1) && nextToken.value.kind.ParenOpen? {
      assert spec == ParserSpec.ParseFunctionCall(ts, s.position);
      r := ParseFunctionCall(s);
      return;
    }
    var reference := ParseReference(s);
    if reference.Failure? {
      return Failure(reference.error);
    }
    assert spec == Assignment(ts, reference.value, s.position);
    r := ParseAssignment(s, reference.value);
  }

  /** The operator and right-hand side of an assignment whose target is already parsed. */
  method ParseAssignment(s: TokenStream, target: Node) returns (r: Result<Node, ParseError>)
    requires s.position <= |s.tokens|
    modifies s
    decreases |s.tokens| - s.position, 0
    ensures Assignment(s.tokens, target, old(s.position)) == WithCursor(r, s.position)
  {
    if !s.HasNext(0) {
      return Failure(ParserError(AssignmentExpected, 0));
    }
    var consumed := s.Consume(1);
    var currentToken := consumed.value;
    var operator := AssignmentOperator.Equals;
    if currentToken.kind.Equals? {
      operator := AssignmentOperator.Equals;
    } else if currentToken.kind.MinusEquals? {
      operator := AssignmentOperator.MinusEquals;
    } else if currentToken.kind.PlusEquals? {
      operator := AssignmentOperator.PlusEquals;
    } else {
      return Failure(ParserError(AssignmentOperatorExpected, currentToken.position));
    }
    assert AssignmentOf(currentToken.kind) == Some(operator);
    var expression := ParseExpression(s);
    if expression.Failure? {
      return Failure(expression.error);
    }
    return Success(Operation(target, operator, expression.value));
  }

  method ParseExpression(s: TokenStream) returns (r: Result<Node, ParseError>)
    requires s.position <= |s.tokens|
    modifies s
    decreases |s.tokens| - s.position, 7
    ensures ParserSpec.ParseExpression(s.tokens, old(s.position)) == WithCursor(r, s.position)
  {
    var toReturn: Option<Node> := None;
    var currentExpression: Option<Chain> := None;
    while s.HasNext(0)
      invariant old(s.position) <= s.position <= |s.tokens|
      invariant ExpressionLoop(s.tokens, s.position, toReturn, currentExpression) == ParserSpec.ParseExpression(s.tokens, old(s.position))
      decreases |s.tokens| - s.position
    {
      var startPosition := s.GetPosition();
      ghost var here := ExpressionLoop(s.tokens, s.position, toReturn, currentExpression);
      var term := ParseTerm(s);
      if term.Failure? {
        return Failure(term.error);
      }
      assert here == AfterTerm(s.tokens, startPosition, s.position, term.value, currentExpression);
      toReturn := Some(term.value);
      if !s.HasNext(0) {
        break;
      }
      var operatorToken := s.Peek(0).value;
      if operatorToken.kind.Plus? || operatorToken.kind.Minus? || operatorToken.kind.Multiply? || operatorToken.kind.Divide? {
        var operator := MathOperatorOf(operatorToken.kind).value;
        var _ := s.Consume(1);
        // the Aggregate before this one is not reachable from the result
        currentExpression := Some(Chain(term.value, operator));
      } else if StartsCondition(operatorToken.kind) {
        // the term starts a condition: read it again as one
        s.SetPosition(startPosition);
        r := ParseBooleanExpressions(s, 0);
        return;
      } else if currentExpression.Some? {
        return Success(Aggregate(currentExpression.value.left, currentExpression.value.operator, term.value));
      } else {
        return Success(term.value);
      }
    }
    if toReturn.None? {
      return Failure(ReadPastEnd);
    }
    if currentExpression.Some? {
      return Success(Aggregate(currentExpression.value.left, currentExpression.value.operator, toReturn.value));
    }
    return Success(toReturn.value);
  }

  /** The term at the head of each round of parseExpression's loop. */
  method ParseTerm(s: TokenStream) returns (r: Result<Node, ParseError>)
    requires s.position < |s.tokens|
    modifies s
    decreases |s.tokens| - s.position, 3
    ensures ParserSpec.ParseTerm(s.tokens, old(s.position)) == WithCursor(r, s.position)
  {
    var currentToken := s.Peek(0).value;
    if currentToken.kind.String? {
      r := ParseString(s);
    } else if currentToken.kind.Number? {
      var _ := s.Consume(1);
      r := Success(NumericLiteral(currentToken.value));
    } else if currentToken.kind.True? || currentToken.kind.False? {
      var _ := s.Consume(1);
      r := Success(BooleanLiteral(currentToken.kind.True?));
    } else if currentToken.kind.Identifier? {
      var nextToken := s.Peek(1);
      if s.HasNext(1) && nextToken.value.kind.ParenOpen? {
        r := ParseFunctionCall(s);
      } else {
        r := ParseReference(s);
      }
    } else if currentToken.kind.BraceOpen? {
      r := ParseObject(s);
    } else {
      r := Failure(ParserError(ExpressionExpected, currentToken.position));
    }
  }

  method ParseString(s: TokenStream) returns (r: Result<Node, ParseError>)
    requires s.position <= |s.tokens|
    modifies s
    decreases |s.tokens| - s.position, 2
    ensures ParserSpec.ParseString(s.tokens, old(s.position)) == WithCursor(r, s.position)
  {
    var first := s.Consume(1);
    if first.None? {
      return Failure(ReadPastEnd);
    }
    var stringLit := StringLiteral(first.value.value);
    var nextToken := s.Peek(0);
    if nextToken.None? {
      return Failure(ReadPastEnd);
    }
    if !nextToken.value.kind.Plus? {
      return Success(stringLit);
    }
    var nodes := [stringLit];
    while s.HasNext(1)
      invariant old(s.position) < s.position <= |s.tokens|
      invariant nextToken == s.Peek(0)
      invariant ConcatenationLoop(s.tokens, s.position, nodes) == ParserSpec.ParseString(s.tokens, old(s.position))
      decreases |s.tokens| - s.position
    {
      if !nextToken.value.kind.Plus? {
        return Success(StringConcatenation(nodes));
      }
      var operand := s.Peek(1).value;
      if IsLiteral(operand.kind) {
        var _ := s.Consume(2);
        nodes := nodes + [StringLiteral(operand.value)];
      } else if operand.kind.Identifier? {
        var _ := s.Consume(1);
        var reference := ParseReference(s);
        if reference.Failure? {
          return Failure(reference.error);
        }
        nodes := nodes + [reference.value];
      } else {
        return Failure(ParserError(ConcatenationOperandExpected, operand.position));
      }
      nextToken := s.Peek(0);
    }
    return Success(StringConcatenation(nodes));
  }

  method ParseReference(s: TokenStream) returns (r: Result<Node, ParseError>)
    requires s.position <= |s.tokens|
    modifies s
    decreases |s.tokens| - s.position, 1
    ensures ParserSpec.ParseReference(s.tokens, old(s.position)) == WithCursor(r, s.position)
  {
    ghost var ts := s.tokens;
    var first := s.Consume(1);
    if first.None? {
      return Failure(ReadPastEnd);
    }
    var name := Spelling(first.value.value);
    if !s.HasNext(0) {
      return Success(Node.Identifier(name));
    }
    ghost var steps := ReferenceSteps(ts, s.position, []);
    var nextToken := s.Peek(0);
    var subReferences: seq<Node> := [];
    var continueSearch := true;
    while continueSearch && s.HasNext(0)
      invariant old(s.position) < s.position <= |ts|
      invariant nextToken == s.Peek(0)
      invariant steps == if continueSearch then ReferenceSteps(ts, s.position, subReferences)
                         else Success(Parsed(subReferences, s.position))
      decreases |ts| - s.position, if continueSearch then 1 else 0
    {
      var kind := nextToken.value.kind;
      if kind.Dot? {
        var _ := s.Consume(1);
        var step := s.Consume(1);
        if step.None? {
          return Failure(ReadPastEnd);
        }
        if !step.value.kind.Identifier? {
          return Failure(ParserError(IdentifierExpected, step.value.position));
        }
        subReferences := subReferences + [Node.Identifier(Spelling(step.value.value))];
      } else if kind.SquareOpen? {
        var _ := s.Consume(1);
        var index := ParseExpression(s);
        if index.Failure? {
          return Failure(index.error);
        }
        assert steps == IndexEnd(ts, s.position, subReferences, index.value);
        var close := s.Consume(1);
        if close.None? {
          return Failure(ReadPastEnd);
        }
        if !close.value.kind.SquareClose? {
          return Failure(ParserError(SquareCloseExpected, close.value.position));
        }
        subReferences := subReferences + [IndexAccess(index.value)];
      } else {
        continueSearch := false;
      }
      nextToken := s.Peek(0);
    }
    if |subReferences| == 0 {
      return Success(Node.Identifier(name));
    }
    return Success(PropertyAccess(name, subReferences));
  }

  method ParseFunctionCall(s: TokenStream) returns (r: Result<Node, ParseError>)
    requires s.position + 1 < |s.tokens|
    modifies s
    decreases |s.tokens| - s.position, 2
    ensures ParserSpec.ParseFunctionCall(s.tokens, old(s.position)) == WithCursor(r, s.position)
  {
    var currentToken := s.Consume(1);
    var fnName := Spelling(currentToken.value.value);
    var _ := s.Consume(1);
    var parameters: seq<Node> := [];
    while s.HasNext(0)
      invariant old(s.position) < s.position <= |s.tokens|
      invariant ArgumentLoop(s.tokens, s.position, fnName, parameters) == ParserSpec.ParseFunctionCall(s.tokens, old(s.position))
      decreases |s.tokens| - s.position
    {
      var nextToken := s.Peek(0).value;
      if nextToken.kind.ParenClose? {
        var _ := s.Consume(1);
        break;
      }
      var param := ParseExpression(s);
      if param.Failure? {
        return Failure(param.error);
      }
      parameters := parameters + [param.value];
      if !s.HasNext(0) {
        return Failure(ParserError(FunctionCallEndOfStream, nextToken.position));
      }
      // a comma is skipped when present, so `a(1,)` is accepted
      if s.Peek(0).value.kind.Comma? {
        var _ := s.Consume(1);
      }
    }
    return Success(FunctionCall(fnName, parameters));
  }

  method ParseForLoop(s: TokenStream) returns (r: Result<Node, ParseError>)
    requires s.position < |s.tokens|
    modifies s
    ensures ParserSpec.ParseForLoop(s.tokens, old(s.position)) == WithCursor(r, s.position)
  {
    ghost var pos := s.position;
    var _ := s.Consume(1);
    var nextToken := s.Consume(1);
    if nextToken.None? {
      return Failure(ReadPastEnd);
    }
    if nextToken.value.kind.Each? {
      r := ParseForEach(s);
    } else if nextToken.value.kind.ParenOpen? {
      r := ParseForCount(s);
    } else {
      ForInvalidHeader(s.tokens, pos);
      r := Failure(ParserError(ForInvalid, nextToken.value.position));
    }
  }

  /** A `for` followed by neither `each` nor `(` is refused at that token. */
  lemma ForInvalidHeader(ts: seq<Token>, pos: nat)
    requires pos + 1 < |ts| && !ts[pos + 1].kind.Each? && !ts[pos + 1].kind.ParenOpen?
    ensures ParserSpec.ParseForLoop(ts, pos) == Failure(ParserError(ForInvalid, ts[pos + 1].position))
  {
  }

  /** The header of a `for each` loop after the `each`, then its body. */
  method ParseForEach(s: TokenStream) returns (r: Result<Node, ParseError>)
    requires s.position <= |s.tokens|
    modifies s
    ensures ForEach(s.tokens, old(s.position)) == WithCursor(r, s.position)
  {
    var target := s.Peek(0);
    if target.None? {
      return Failure(ReadPastEnd);
    }
    if target.value.kind.Identifier? {
      var reference := ParseReference(s);
      if reference.Failure? {
        return Failure(reference.error);
      }
      r := ParseForBody(s, ForLoopType.Each, NodeParameter(reference.value));
    } else if target.value.kind.SquareOpen? {
      var values := ParseArray(s);
      if values.Failure? {
        return Failure(values.error);
      }
      r := ParseForBody(s, ForLoopType.Each, ArrayParameter(values.value));
    } else {
      r := Failure(ParserError(ForEachInvalid, target.value.position));
    }
  }

  /** The header of a counted loop after the `(`, then its body. */
  method ParseForCount(s: TokenStream) returns (r: Result<Node, ParseError>)
    requires s.position <= |s.tokens|
    modifies s
    ensures ForCount(s.tokens, old(s.position)) == WithCursor(r, s.position)
  {
    var count := ParseExpression(s);
    if count.Failure? {
      return Failure(count.error);
    }
    var close := s.Consume(1);
    if close.None? {
      return Failure(ReadPastEnd);
    }
    if !close.value.kind.ParenClose? {
      return Failure(ParserError(ForParenCloseExpected, close.value.position));
    }
    r := ParseForBody(s, ForLoopType.For, NodeParameter(count.value));
  }

  /** The operations that make up a loop's body. */
  method ParseForBody(s: TokenStream, loopType: ForLoopType, parameter: LoopParameter) returns (r: Result<Node, ParseError>)
    requires s.position <= |s.tokens|
    modifies s
    ensures ForBody(s.tokens, loopType, parameter, old(s.position)) == WithCursor(r, s.position)
  {
    var body := ParseOperations(s);
    if body.Failure? {
      return Failure(body.error);
    }
    return Success(ForLoop(loopType, parameter, body.value));
  }

  method ParseObject(s: TokenStream) returns (r: Result<Node, ParseError>)
    requires s.position < |s.tokens|
    modifies s
    decreases |s.tokens| - s.position, 2
    ensures ParserSpec.ParseObject(s.tokens, old(s.position)) == WithCursor(r, s.position)
  {
    ghost var ts := s.tokens;
    ghost var spec := ParserSpec.ParseObject(ts, s.position);
    var _ := s.Consume(1);
    var properties: seq<ObjectProperty> := [];
    var finished := false;
    while s.HasNext(0) && !finished
      invariant old(s.position) < s.position <= |s.tokens|
      invariant spec == if finished then Success(Parsed(ObjectNode(properties), s.position))
                else PropertyLoop(ts, s.position, properties)
      decreases |s.tokens| - s.position, if finished then 0 else 1
    {
      if s.Peek(0).value.kind.BraceClose? {
        var _ := s.Consume(1);
        break;
      }
      var property := ParseProperty(s);
      if property.Failure? {
        return Failure(property.error);
      }
      properties := properties + [property.value];
      assert spec == PropertyEnd(ts, s.position, properties);
      var separator := s.Consume(1);
      if separator.None? {
        return Failure(ReadPastEnd);
      }
      // a separator other than `,` or `}` is dropped
      if separator.value.kind.BraceClose? {
        finished := true;
      }
    }
    return Success(ObjectNode(properties));
  }

  //#endregion

  //#region Utility functions

  /** One `"name": expression` entry of an object literal. */
  method ParseProperty(s: TokenStream) returns (r: Result<ObjectProperty, ParseError>)
    requires s.position < |s.tokens|
    modifies s
    decreases |s.tokens| - s.position, 0
    ensures ParserSpec.ParseProperty(s.tokens, old(s.position)) == WithCursor(r, s.position)
  {
    var consumed := s.Consume(1);
    var nameToken := consumed.value;
    if !nameToken.kind.String? {
      return Failure(ParserError(StringExpected, nameToken.position));
    }
    var colon := s.Consume(1);
    if colon.None? {
      return Failure(ReadPastEnd);
    }
    if !colon.value.kind.Colon? {
      return Failure(ParserError(ColonExpected, colon.value.position));
    }
    var value := ParseExpression(s);
    if value.Failure? {
      return Failure(value.error);
    }
    return Success(ObjectProperty(Spelling(nameToken.value), value.value));
  }

  method ParseArray(s: TokenStream) returns (r: Result<seq<TokenValue>, ParseError>)
    requires s.position <= |s.tokens|
    modifies s
    ensures ParserSpec.ParseArray(s.tokens, old(s.position)) == WithCursor(r, s.position)
  {
    var toReturn: seq<TokenValue> := [];
    var finished := false;
    var prevValue: Option<Token> := None;
    var currentToken := s.Consume(1);
    if currentToken.None? {
      return Failure(ReadPastEnd);
    }
    if !currentToken.value.kind.SquareOpen? {
      return Failure(ParserError(ArrayExpected, currentToken.value.position));
    }
    while s.HasNext(0) && !finished
      invariant old(s.position) < s.position <= |s.tokens|
      invariant ParserSpec.ParseArray(s.tokens, old(s.position))
             == if finished then Success(Parsed(toReturn, s.position))
                else ArrayLoop(s.tokens, s.position, toReturn, prevValue.Some?)
      decreases |s.tokens| - s.position, if finished then 0 else 1
    {
      var consumed := s.Consume(1);
      var element := consumed.value;
      if element.kind.String? || element.kind.Number? {
        if prevValue.Some? {
          return Failure(ParserError(MissingComma, element.position));
        }
        prevValue := Some(element);
        toReturn := toReturn + [element.value];
      } else if element.kind.Comma? {
        prevValue := None;
      } else if element.kind.SquareClose? {
        finished := true;
      } else {
        return Failure(ParserError(ArrayElementExpected, element.position));
      }
    }
    return Success(toReturn);
  }

  //#endregion
}
