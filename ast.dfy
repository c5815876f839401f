/** The syntax tree the parser builds and the engine walks: one closed datatype
    in place of the record classes, each constructor its own tag. */
module Ast {
  import opened Wrappers
  import opened Tokens

  /** `+ - * /` */
  datatype MathOperator = Plus | Minus | Multiply | Divide

  /** The comparators of a leaf condition. */
  datatype BooleanOperator = DoubleEquals | NotEquals | LessThan | LessThanEqual | GreaterThan | GreaterThanEqual | In

  /** The combinators of a condition group; `Not` is binary: left and not right. */
  datatype BinaryOperator = And | Or | Not

  datatype AssignmentOperator = Equals | PlusEquals | MinusEquals

  datatype ForLoopType = For | Each

  datatype Node =
    /** An absent operand: what a condition parse returns when it read no term. */
    | Missing
    | Identifier(name: string)
    /** A base name and its `.name` / `[index]` steps, in source order. */
    | PropertyAccess(objectName: string, steps: seq<Node>)
    | IndexAccess(index: Node)
    /** A literal holds the value of the token it came from (a string
        concatenation also stores number and boolean tokens this way). */
    | StringLiteral(value: TokenValue)
    | NumericLiteral(value: TokenValue)
    | BooleanLiteral(b: bool)
    | StringConcatenation(parts: seq<Node>)
    | Aggregate(left: Node, operator: MathOperator, right: Node)
    | BooleanExpression(left: Node, comparator: BooleanOperator, right: Node)
    | BooleanExpressionGroup(left: Node, combinator: BinaryOperator, right: Node)
    | ObjectNode(properties: seq<ObjectProperty>)
    | FunctionCall(name: string, parameters: seq<Node>)
    | Operation(reference: Node, assignment: AssignmentOperator, expression: Node)
    | Branch(condition: Node, condTrueBody: seq<Node>, condFalseBody: Option<seq<Node>>)
    | ForLoop(loopType: ForLoopType, parameter: LoopParameter, operations: seq<Node>)

  datatype ObjectProperty = ObjectProperty(name: string, value: Node)

  /** A loop bound or collection: an expression, or the values of a literal array. */
  datatype LoopParameter = NodeParameter(node: Node) | ArrayParameter(values: seq<TokenValue>)
}
