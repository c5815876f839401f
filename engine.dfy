/** The engine: runs the top-level statements of a parsed program against a
    context of named values, which it updates in place. Only assignments do
    anything; a branch is evaluated to nothing, and only literals have values. */
module Runtime {
  import opened Wrappers
  import opened Tokens
  import opened Ast

  /** What a context binds a name to. `Absent` is `undefined`: the value of an
      unbound name, of a missing field, and of every expression that is not a
      literal. Objects are values here; two bindings never share one. */
  datatype Value =
    | Num(n: int)
    | Str(s: string)
    | Bool(b: bool)
    | Obj(fields: map<string, Value>)
    | Absent

  /** Why an operation stops the run. */
  datatype Fault =
    /** `+=` or `-=` on values the model gives no sum or difference for. */
    | TypeMismatch
    /** A field write on a name not bound to an object. */
    | NotAnObject
    /** A target that is neither a name nor a name with one `.field` step. */
    | UnsupportedTarget

  datatype Outcome = Done | Faulted(fault: Fault)

  /** The value a literal token stores. */
  function TokenValueOf(v: TokenValue): (r: Value)
    ensures r.Num? || r.Str?
  {
    match v
    case TextValue(t) => Str(t)
    case NumberValue(n) => Num(n)
  }

  /** evaluateExpression: a literal gives its stored value, every other
      node `undefined`. The context is passed but not read. */
  function EvaluateExpression(expression: Node, context: map<string, Value>): (v: Value)
    ensures v != Absent <==> expression.NumericLiteral? || expression.StringLiteral? || expression.BooleanLiteral?
    ensures expression.BooleanLiteral? ==> v == Bool(expression.b)
    ensures expression.NumericLiteral? && expression.value.NumberValue? ==> v == Num(expression.value.number)
    ensures expression.StringLiteral? && expression.value.TextValue? ==> v == Str(expression.value.text)
  {
    if expression.NumericLiteral? || expression.StringLiteral? then TokenValueOf(expression.value)
    else if expression.BooleanLiteral? then Bool(expression.b)
    else Absent
  }

  /** The value of a name in a context, `undefined` when unbound. */
  function Lookup(m: map<string, Value>, key: string): Value {
    if key in m then m[key] else Absent
  }

  /** The value an assignment operator makes of the old value and the right
      side: `=` takes the right side, `+=` adds numbers or joins strings,
      `-=` subtracts numbers. */
  function Combine(op: AssignmentOperator, current: Value, right: Value): (r: Result<Value, Fault>)
    ensures op.Equals? ==> r == Success(right)
    ensures op.PlusEquals? && current.Num? && right.Num? ==> r == Success(Num(current.n + right.n))
    ensures op.PlusEquals? && current.Str? && right.Str? ==> r == Success(Str(current.s + right.s))
    ensures op.MinusEquals? && current.Num? && right.Num? ==> r == Success(Num(current.n - right.n))
    ensures r.Failure? <==> !op.Equals? && !(current.Num? && right.Num?) && !(op.PlusEquals? && current.Str? && right.Str?)
  {
    match op
    case Equals => Success(right)
    case PlusEquals =>
      if current.Num? && right.Num? then Success(Num(current.n + right.n))
      else if current.Str? && right.Str? then Success(Str(current.s + right.s))
      else Failure(TypeMismatch)
    case MinusEquals =>
      if current.Num? && right.Num? then Success(Num(current.n - right.n))
      else Failure(TypeMismatch)
  }

  /** The field a property target writes: `name.field` is a PropertyAccess
      with exactly one `.field` step. */
  predicate IsFieldTarget(reference: Node) {
    reference.PropertyAccess? && |reference.steps| == 1 && reference.steps[0].Identifier?
  }

  /** The context an operation leaves: the right side is evaluated first;
      a name target is rebound, a field target has that field of the
      object bound to its name rewritten. */
  function Assign(context: map<string, Value>, operation: Node): (r: Result<map<string, Value>, Fault>)
    requires operation.Operation?
    ensures !operation.reference.Identifier? && !IsFieldTarget(operation.reference) ==> r == Failure(UnsupportedTarget)
    ensures IsFieldTarget(operation.reference) && !Lookup(context, operation.reference.objectName).Obj? ==> r == Failure(NotAnObject)
    ensures r == Failure(TypeMismatch) ==> !operation.assignment.Equals?
    ensures r.Success? ==> r.value.Keys == context.Keys + {TargetKey(operation.reference)}
  {
    var right := EvaluateExpression(operation.expression, context);
    var target := operation.reference;
    if target.Identifier? then
      match Combine(operation.assignment, Lookup(context, target.name), right)
      case Failure(f) => Failure(f)
      case Success(v) => Success(context[target.name := v])
    else if IsFieldTarget(target) then
      var field := target.steps[0].name;
      var obj := Lookup(context, target.objectName);
      if !obj.Obj? then Failure(NotAnObject)
      else
        match Combine(operation.assignment, Lookup(obj.fields, field), right)
        case Failure(f) => Failure(f)
        case Success(v) => Success(context[target.objectName := Obj(obj.fields[field := v])])
    else Failure(UnsupportedTarget)
  }

  /** One top-level statement: an operation assigns; a branch and every other
      node leave the context as it is. */
  function Statement(context: map<string, Value>, line: Node): (r: Result<map<string, Value>, Fault>)
    ensures r.Success? ==> context.Keys <= r.value.Keys
    ensures r.Failure? ==> line.Operation?
  {
    if line.Operation? then Assign(context, line) else Success(context)
  }

  /** The statements in order from the first; a fault stops the run with the
      context as the statements before it left it. */
  function Run(context: map<string, Value>, lines: seq<Node>): (r: (map<string, Value>, Outcome))
    decreases |lines|
    ensures context.Keys <= r.0.Keys
    ensures r.1.Faulted? ==> exists i :: 0 <= i < |lines| && lines[i].Operation?
  {
    if lines == [] then (context, Done)
    else
      match Statement(context, lines[0])
      case Failure(f) => (context, Faulted(f))
      case Success(next) => Run(next, lines[1..])
  }

  /** The dictionary the engine runs against, changed in place. */
  class Context {
    var bindings: map<string, Value>

    constructor (bindings: map<string, Value>)
      ensures this.bindings == bindings
    {
      this.bindings := bindings;
    }
  }

  class Engine {
    const ast: seq<Node>

    constructor (ast: seq<Node>)
      ensures this.ast == ast
    {
      this.ast := ast;
    }

    /** execute: the statements one after another against `context`. */
    method Execute(context: Context) returns (r: Outcome)
      modifies context
      ensures (context.bindings, r) == Run(old(context.bindings), ast)
    {
      var i := 0;
      while i < |ast|
        invariant 0 <= i <= |ast|
        invariant Run(context.bindings, ast[i..]) == Run(old(context.bindings), ast)
      {
        var line := ast[i];
        assert ast[i..][1..] == ast[i + 1..];
        if line.Operation? {
          var step := ExecuteOperation(line, context);
          if step.Faulted? {
            return step;
          }
        } else if line.Branch? {
          EvaluateBranch(line, context);
        }
        i := i + 1;
      }
      return Done;
    }

    /** executeOperation: evaluate the right side, then update the target. */
    method ExecuteOperation(operation: Node, context: Context) returns (r: Outcome)
      requires operation.Operation?
      modifies context
      ensures match Assign(old(context.bindings), operation)
              case Failure(f) => r == Faulted(f) && context.bindings == old(context.bindings)
              case Success(next) => r == Done && context.bindings == next
    {
      var rightValue := EvaluateExpression(operation.expression, context.bindings);
      var reference := operation.reference;
      if IsFieldTarget(reference) {
        var obj := Lookup(context.bindings, reference.objectName);
        var field := reference.steps[0].name;
        if !obj.Obj? {
          return Faulted(NotAnObject);
        }
        var currentValue := Lookup(obj.fields, field);
        var written := Combine(operation.assignment, currentValue, rightValue);
        if written.Failure? {
          return Faulted(written.error);
        }
        context.bindings := context.bindings[reference.objectName := Obj(obj.fields[field := written.value])];
        return Done;
      }
      if !reference.Identifier? {
        return Faulted(UnsupportedTarget);
      }
      var leftValue := Lookup(context.bindings, reference.name);
      var combined := Combine(operation.assignment, leftValue, rightValue);
      if combined.Failure? {
        return Faulted(combined.error);
      }
      context.bindings := context.bindings[reference.name := combined.value];
      return Done;
    }

    /** evaluateBranch: does nothing in this version. */
    method EvaluateBranch(branch: Node, context: Context)
      requires branch.Branch?
      modifies context
      ensures context.bindings == old(context.bindings)
    {
    }
  }

  //#region Properties

  /** `x = e` binds `x` to the value of `e`, whatever it held before. */
  lemma AssignReplaces(context: map<string, Value>, name: string, e: Node)
    ensures Assign(context, Operation(Node.Identifier(name), AssignmentOperator.Equals, e))
            == Success(context[name := EvaluateExpression(e, context)])
  {
  }

  /** `x += e` rebinds `x` to old plus value, `x -= e` to old minus value. */
  lemma AddAndSubtract(context: map<string, Value>, name: string, e: Node, a: int, b: int)
    requires name in context && context[name] == Num(a) && EvaluateExpression(e, context) == Num(b)
    ensures Assign(context, Operation(Node.Identifier(name), AssignmentOperator.PlusEquals, e)) == Success(context[name := Num(a + b)])
    ensures Assign(context, Operation(Node.Identifier(name), AssignmentOperator.MinusEquals, e)) == Success(context[name := Num(a - b)])
  {
  }

  /** The key an operation writes: the name, or the object's name. */
  function TargetKey(reference: Node): string {
    if reference.Identifier? then reference.name
    else if reference.PropertyAccess? then reference.objectName
    else ""
  }

  /** An operation changes only the binding of its target's name; every
      other key is bound as before, and none is added or removed besides it. */
  lemma OnlyTargetChanges(context: map<string, Value>, operation: Node)
    requires operation.Operation? && Assign(context, operation).Success?
    ensures var next := Assign(context, operation).value;
            var key := TargetKey(operation.reference);
            key in next && next.Keys == context.Keys + {key}
            && forall k :: k in context && k != key ==> k in next && next[k] == context[k]
  {
  }

  /** A field write keeps the name bound to an object, rewrites that one
      field and keeps every other field. */
  lemma FieldWriteInPlace(context: map<string, Value>, operation: Node)
    requires operation.Operation? && IsFieldTarget(operation.reference) && Assign(context, operation).Success?
    ensures var next := Assign(context, operation).value;
            var name, field := operation.reference.objectName, operation.reference.steps[0].name;
            name in context && context[name].Obj?
            && name in next && next[name].Obj?
            && field in next[name].fields
            && Combine(operation.assignment, Lookup(context[name].fields, field),
                       EvaluateExpression(operation.expression, context)) == Success(next[name].fields[field])
            && forall f :: f in context[name].fields && f != field ==> f in next[name].fields && next[name].fields[f] == context[name].fields[f]
  {
  }

  /** A statement that is not an operation, a branch among them, changes nothing. */
  lemma OthersLeaveContext(context: map<string, Value>, line: Node)
    requires !line.Operation?
    ensures Run(context, [line]) == (context, Done)
  {
  }

  /** The right side is read from the context as it was before the
      operation, and an operation whose right side is not a literal stores
      `undefined`. */
  lemma NonLiteralStoresAbsent(context: map<string, Value>, name: string, e: Node)
    requires !e.NumericLiteral? && !e.StringLiteral? && !e.BooleanLiteral?
    ensures Assign(context, Operation(Node.Identifier(name), AssignmentOperator.Equals, e)) == Success(context[name := Absent])
    ensures Assign(context, Operation(Node.Identifier(name), AssignmentOperator.PlusEquals, e)) == Failure(TypeMismatch)
  {
  }

  /** The statements run in order: running `a + b` is running `a`, then, if
      it did not fault, `b` from where `a` left the context. */
  lemma {:induction false} RunInOrder(context: map<string, Value>, a: seq<Node>, b: seq<Node>)
    ensures Run(context, a + b)
            == (var (mid, outcome) := Run(context, a); if outcome.Done? then Run(mid, b) else (mid, outcome))
    decreases |a|
  {
    if a == [] {
      assert a + b == b;
    } else {
      assert (a + b)[0] == a[0];
      assert (a + b)[1..] == a[1..] + b;
      match Statement(context, a[0])
      case Failure(f) =>
      case Success(next) =>
        RunInOrder(next, a[1..], b);
    }
  }

  //#endregion
}
