/** What the parser's results mean: the precedence the condition parser
    reconstructs, the shapes of references, calls, arrays and arithmetic
    chains, and the errors it raises. Every lemma is about the functions of
    `ParserSpec`, which the imperative parser is proved to compute. */
module ParserProperties {
  import opened Wrappers
  import opened Tokens
  import opened Ast
  import opened ParserSpec

  //#region Sequences

  /** Moving the first element of `xs` onto `acc`. */
  lemma AppendFirst<T>(acc: seq<T>, xs: seq<T>)
    requires xs != []
    ensures acc + [xs[0]] + xs[1..] == acc + xs
  {
  }

  /** Small facts about appending, kept out of the larger proofs. */
  lemma AppendEmpty<T>(xs: seq<T>)
    ensures [] + xs == xs
  {
  }

  lemma AppendNothing<T>(xs: seq<T>)
    ensures xs + [] == xs
  {
  }

  lemma AppendCons<T>(acc: seq<T>, x: T, xs: seq<T>)
    ensures acc + [x] + xs == acc + ([x] + xs)
  {
  }

  //#endregion

  //#region Conditions

  /** The truth value of a condition made of boolean literals joined by
      `and`, `or` and the binary `not` (left and not right); other nodes have
      none. This is the usual reading of `and` and `or`; the reading of `not`
      is this model's own, since the engine never evaluates a condition. */
  function Truth(n: Node): Option<bool> {
    if n.BooleanLiteral? then Some(n.b)
    else if n.BooleanExpressionGroup? then
      var l, r := Truth(n.left), Truth(n.right);
      if l.None? || r.None? then None
      else if n.combinator.And? then Some(l.value && r.value)
      else if n.combinator.Or? then Some(l.value || r.value)
      else Some(l.value && !r.value)
    else None
  }

  /** A condition of literals, `and`, `or` and parentheses: an operand is a
      literal or a parenthesised condition, and a condition is a first
      operand followed by links `op operand`. */
  datatype Operand = Leaf(b: bool) | Group(first: Operand, rest: Links)
  datatype Links = End | Link(isAnd: bool, operand: Operand, more: Links)

  /** The usual reading of an operand, with `and` binding tighter than `or`. */
  function Value(o: Operand): bool
    decreases o
  {
    match o
    case Leaf(b) => b
    case Group(first, rest) => Precedence(false, Value(first), rest)
  }

  /** The usual reading of the links after the operands read so far: `done`
      is the value of the disjuncts already closed, `cur` the value of the
      conjunction still open. */
  function Precedence(done: bool, cur: bool, l: Links): bool
    decreases l
  {
    match l
    case End => done || cur
    case Link(isAnd, o, more) =>
      if isAnd then Precedence(done, cur && Value(o), more)
      else Precedence(done || cur, Value(o), more)
  }

  /** The token kinds an operand is written with. */
  function Spell(o: Operand): seq<TokenKind>
    decreases o
  {
    match o
    case Leaf(b) => [if b then TokenKind.True else TokenKind.False]
    case Group(first, rest) => [ParenOpen] + (Spell(first) + SpellLinks(rest)) + [ParenClose]
  }

  function SpellLinks(l: Links): seq<TokenKind>
    decreases l
  {
    match l
    case End => []
    case Link(isAnd, o, more) => [CombinatorKind(isAnd)] + (Spell(o) + SpellLinks(more))
  }

  /** The kinds of a group without its parentheses: a condition as an `if`
      statement writes it. */
  function Inner(c: Operand): seq<TokenKind>
    requires c.Group?
  {
    Spell(c.first) + SpellLinks(c.rest)
  }

  /** From `pos` on, the tokens have the kinds `ks`. */
  predicate KindsAt(ts: seq<Token>, pos: nat, ks: seq<TokenKind>) {
    pos + |ks| <= |ts| && forall i :: 0 <= i < |ks| ==> ts[pos + i].kind == ks[i]
  }

  lemma KindsSplit(ts: seq<Token>, pos: nat, a: seq<TokenKind>, b: seq<TokenKind>)
    requires KindsAt(ts, pos, a + b)
    ensures KindsAt(ts, pos, a) && KindsAt(ts, pos + |a|, b)
  {
    forall i | 0 <= i < |a| ensures ts[pos + i].kind == a[i] {
      assert (a + b)[i] == a[i];
    }
    forall i | 0 <= i < |b| ensures ts[pos + |a| + i].kind == b[i] {
      assert (a + b)[|a| + i] == b[i];
    }
  }

  lemma KindsIndex(ts: seq<Token>, pos: nat, ks: seq<TokenKind>, i: nat)
    requires KindsAt(ts, pos, ks) && i < |ks|
    ensures ts[pos + i].kind == ks[i]
  {
  }

  /** What may follow a condition at `q`: the end of input, `then`, or a `)`
      closing one of the parentheses opened before. */
  predicate Closes(ts: seq<Token>, q: nat, depth: int) {
    q == |ts| || (q < |ts| && (ts[q].kind.Then? || (ts[q].kind.ParenClose? && 1 <= depth)))
  }

  /** Where the parse resumes after a condition closed at `q`: a `)` is consumed. */
  function After(ts: seq<Token>, q: nat): nat {
    if q < |ts| && ts[q].kind.ParenClose? then q + 1 else q
  }

  /** How the condition the loop has built relates to the usual reading of
      the tokens read so far: it is a literal, an `or` group whose right side
      is the open conjunction, or an `and` group holding the open conjunction
      when no disjunct is closed yet. Each shape is what the steal preserves. */
  predicate Reads(prev: Node, done: bool, cur: bool) {
    (prev.BooleanLiteral? && !done && prev.b == cur)
    || (prev.BooleanExpressionGroup? && prev.combinator.Or?
        && Truth(prev.left) == Some(done) && Truth(prev.right) == Some(cur))
    || (prev.BooleanExpressionGroup? && prev.combinator.And? && !done
        && Truth(prev.left).Some? && Truth(prev.right).Some?
        && (Truth(prev.left).value && Truth(prev.right).value) == cur)
  }

  /** The loop's state against the reading: right after a parenthesised
      group the condition so far is one operand, which no steal may split;
      otherwise it has one of the shapes of `Reads`. */
  predicate Holds(prev: Node, inGroup: bool, done: bool, cur: bool) {
    if inGroup then !done && Truth(prev) == Some(cur) else Reads(prev, done, cur)
  }

  lemma HoldsTruth(prev: Node, inGroup: bool, done: bool, cur: bool)
    requires Holds(prev, inGroup, done, cur)
    ensures Truth(prev) == Some(done || cur) && prev != Missing
  {
  }

  /** Combining with the next operand keeps the reading: `or` closes the open
      conjunction, `and` extends it, stealing the right side of a group that
      is not parenthesised. */
  lemma CombineHolds(prev: Node, inGroup: bool, done: bool, cur: bool, isAnd: bool, x: Node, v: bool)
    requires Holds(prev, inGroup, done, cur) && Truth(x) == Some(v)
    ensures if isAnd then Holds(Combine(prev, CombinatorFor(isAnd), x, inGroup), false, done, cur && v)
            else Holds(Combine(prev, CombinatorFor(isAnd), x, inGroup), false, done || cur, v)
  {
    HoldsTruth(prev, inGroup, done, cur);
  }

  function CombinatorKind(isAnd: bool): TokenKind {
    if isAnd then TokenKind.And else TokenKind.Or
  }

  function CombinatorFor(isAnd: bool): BinaryOperator {
    if isAnd then BinaryOperator.And else BinaryOperator.Or
  }

  /** The tokens of a link: its combinator, then its operand, then the rest. */
  lemma LinkParts(ts: seq<Token>, pos: nat, l: Links)
    requires l.Link? && KindsAt(ts, pos, SpellLinks(l))
    ensures |SpellLinks(l)| == 1 + |Spell(l.operand)| + |SpellLinks(l.more)|
    ensures pos < |ts| && ts[pos].kind == CombinatorKind(l.isAnd)
    ensures KindsAt(ts, pos + 1, Spell(l.operand))
    ensures KindsAt(ts, pos + 1 + |Spell(l.operand)|, SpellLinks(l.more))
  {
    assert SpellLinks(l) == [CombinatorKind(l.isAnd)] + (Spell(l.operand) + SpellLinks(l.more));
    KindsCons(ts, pos, CombinatorKind(l.isAnd), Spell(l.operand), SpellLinks(l.more));
  }

  lemma KindsCons(ts: seq<Token>, pos: nat, k: TokenKind, a: seq<TokenKind>, b: seq<TokenKind>)
    requires KindsAt(ts, pos, [k] + (a + b))
    ensures pos < |ts| && ts[pos].kind == k && KindsAt(ts, pos + 1, a) && KindsAt(ts, pos + 1 + |a|, b)
  {
    var ks := [k] + (a + b);
    assert ts[pos].kind == ks[0];
    forall i | 0 <= i < |a| ensures ts[pos + 1 + i].kind == a[i] {
      assert ks[1 + i] == a[i];
    }
    forall i | 0 <= i < |b| ensures ts[pos + 1 + |a| + i].kind == b[i] {
      assert ks[1 + |a| + i] == b[i];
    }
  }

  /** The tokens of a parenthesised operand: `(`, its inside, `)`. */
  lemma GroupParts(ts: seq<Token>, pos: nat, o: Operand)
    requires o.Group? && KindsAt(ts, pos, Spell(o))
    ensures pos < |ts| && ts[pos].kind.ParenOpen?
    ensures KindsAt(ts, pos + 1, Inner(o))
    ensures pos + 1 + |Inner(o)| < |ts| && ts[pos + 1 + |Inner(o)|].kind.ParenClose?
    ensures |Spell(o)| == |Inner(o)| + 2
  {
    KindsSplit(ts, pos, [ParenOpen] + Inner(o), [ParenClose]);
    KindsSplit(ts, pos, [ParenOpen], Inner(o));
    KindsIndex(ts, pos, [ParenOpen], 0);
    KindsIndex(ts, pos + 1 + |Inner(o)|, [ParenClose], 0);
  }

  /** The token of a literal operand. */
  lemma LeafParts(ts: seq<Token>, pos: nat, o: Operand)
    requires o.Leaf? && KindsAt(ts, pos, Spell(o))
    ensures pos < |ts| && IsLeaf(ts[pos], o.b) && |Spell(o)| == 1
  {
    KindsIndex(ts, pos, Spell(o), 0);
  }

  /** `t` is the literal `true` or `false` standing for `b`. */
  predicate IsLeaf(t: Token, b: bool) {
    if b then t.kind.True? else t.kind.False?
  }

  /** The loop at a token that closes the condition returns what it has. */
  lemma LoopCloses(ts: seq<Token>, q: nat, depth: int, prev: Node, inGroup: bool, rule: Rule)
    requires q <= |ts| && Closes(ts, q, depth)
    ensures BooleanLoop(ts, q, depth, prev, inGroup, rule) == Success(Parsed(prev, After(ts, q)))
  {
  }

  /** A combinator followed by a literal: one step of the loop. */
  lemma StepLeaf(ts: seq<Token>, pos: nat, depth: int, prev: Node, inGroup: bool, isAnd: bool, b: bool, rule: Rule)
    requires pos + 1 < |ts| && ts[pos].kind == CombinatorKind(isAnd) && IsLeaf(ts[pos + 1], b) && prev != Missing
    ensures BooleanLoop(ts, pos, depth, prev, inGroup, rule)
            == BooleanLoop(ts, pos + 2, depth, Combine(prev, CombinatorFor(isAnd), BooleanLiteral(b), inGroup), FlagAfterPlain(rule, inGroup), rule)
  {
    assert CombinatorOf(ts[pos].kind) == Some(CombinatorFor(isAnd));
    assert ParseBooleanExpression(ts, pos + 1) == Success(Parsed(BooleanLiteral(b), pos + 2));
    var next := Combine(prev, CombinatorFor(isAnd), BooleanLiteral(b), inGroup);
    assert CombinatorStep(ts, pos, CondState(prev, depth, inGroup), rule)
           == Success(Parsed(CondState(next, depth, FlagAfterPlain(rule, inGroup)), pos + 2));
  }

  /** A combinator followed by a parenthesised condition: one step of the loop. */
  lemma StepGroup(ts: seq<Token>, pos: nat, depth: int, prev: Node, inGroup: bool, isAnd: bool, rule: Rule)
    requires pos + 1 < |ts| && ts[pos].kind == CombinatorKind(isAnd) && ts[pos + 1].kind.ParenOpen? && prev != Missing
    requires ParseBooleanExpressions(ts, pos + 2, depth + 1, rule).Success?
    ensures var g := ParseBooleanExpressions(ts, pos + 2, depth + 1, rule).value;
            BooleanLoop(ts, pos, depth, prev, inGroup, rule)
            == BooleanLoop(ts, g.next, depth + 1, Combine(prev, CombinatorFor(isAnd), g.value, FlagBeforeGroup(rule, inGroup)), false, rule)
  {
    assert CombinatorOf(ts[pos].kind) == Some(CombinatorFor(isAnd));
    var g := ParseBooleanExpressions(ts, pos + 2, depth + 1, rule).value;
    var next := Combine(prev, CombinatorFor(isAnd), g.value, FlagBeforeGroup(rule, inGroup));
    assert CombinatorStep(ts, pos, CondState(prev, depth, inGroup), rule) == Success(Parsed(CondState(next, depth + 1, false), g.next));
  }

  /** A literal as the first operand. */
  lemma FirstLeaf(ts: seq<Token>, pos: nat, depth: int, b: bool, rule: Rule)
    requires pos < |ts| && IsLeaf(ts[pos], b)
    ensures ParseBooleanExpressions(ts, pos, depth, rule) == BooleanLoop(ts, pos + 1, depth, BooleanLiteral(b), false, rule)
  {
    assert ParseBooleanExpression(ts, pos) == Success(Parsed(BooleanLiteral(b), pos + 1));
    assert BooleanLoop(ts, pos, depth, Missing, false, rule) == BooleanTerm(ts, pos, depth, rule);
  }

  /** A parenthesised condition as the first operand. */
  lemma FirstGroup(ts: seq<Token>, pos: nat, depth: int, rule: Rule)
    requires pos < |ts| && ts[pos].kind.ParenOpen? && ParseBooleanExpressions(ts, pos + 1, depth + 1, rule).Success?
    ensures var g := ParseBooleanExpressions(ts, pos + 1, depth + 1, rule).value;
            ParseBooleanExpressions(ts, pos, depth, rule) == BooleanLoop(ts, g.next, depth + 1, g.value, true, rule)
  {
  }

  /** Every condition in the operand, the whole one and each parenthesised
      one inside it, starts with a literal (a group after a combinator is
      allowed). Only a leading group sets the loop's group flag, so without
      one the two rules for keeping the flag make the same steps. */
  predicate LeafFirst(o: Operand)
    decreases o
  {
    match o
    case Leaf(_) => true
    case Group(first, rest) => first.Leaf? && LeafFirstLinks(rest)
  }

  predicate LeafFirstLinks(l: Links)
    decreases l
  {
    match l
    case End => true
    case Link(_, o, more) => LeafFirst(o) && LeafFirstLinks(more)
  }

  /** The loop of parseBooleanExpressions, run over links and what closes
      them, ends after them with a tree whose truth is the usual reading:
      always with the corrected flag, and as written when the flag is clear
      and no condition inside starts with a group. */
  lemma {:induction false} LinksFollowPrecedence(ts: seq<Token>, pos: nat, depth: int, prev: Node, inGroup: bool, done: bool, cur: bool, l: Links, rule: Rule)
    requires 0 <= depth && KindsAt(ts, pos, SpellLinks(l)) && Closes(ts, pos + |SpellLinks(l)|, depth)
    requires Holds(prev, inGroup, done, cur)
    requires rule.Corrected? || (!inGroup && LeafFirstLinks(l))
    ensures var r := BooleanLoop(ts, pos, depth, prev, inGroup, rule);
            r.Success? && r.value.next == After(ts, pos + |SpellLinks(l)|)
            && Truth(r.value.value) == Some(Precedence(done, cur, l))
    decreases l, 2
  {
    HoldsTruth(prev, inGroup, done, cur);
    if l.End? {
      LoopCloses(ts, pos, depth, prev, inGroup, rule);
    } else {
      var o := l.operand;
      LinkParts(ts, pos, l);
      if o.Leaf? {
        LeafParts(ts, pos + 1, o);
        StepLeaf(ts, pos, depth, prev, inGroup, l.isAnd, o.b, rule);
        LinkFollowsPrecedence(ts, pos, depth, depth, prev, inGroup, done, cur, l, BooleanLiteral(o.b), pos + 2, rule);
      } else {
        GroupLinkFollowsPrecedence(ts, pos, depth, prev, inGroup, done, cur, l, rule);
      }
    }
  }

  /** A link whose operand is parenthesised: the group is read whole, then
      combined with the condition so far. */
  lemma {:induction false} GroupLinkFollowsPrecedence(ts: seq<Token>, pos: nat, depth: int, prev: Node, inGroup: bool, done: bool, cur: bool, l: Links, rule: Rule)
    requires l.Link? && l.operand.Group? && 0 <= depth && Holds(prev, inGroup, done, cur)
    requires KindsAt(ts, pos, SpellLinks(l)) && Closes(ts, pos + |SpellLinks(l)|, depth)
    requires rule.Corrected? || (!inGroup && LeafFirstLinks(l))
    ensures var r := BooleanLoop(ts, pos, depth, prev, inGroup, rule);
            r.Success? && r.value.next == After(ts, pos + |SpellLinks(l)|)
            && Truth(r.value.value) == Some(Precedence(done, cur, l))
    decreases l, 1
  {
    var o := l.operand;
    HoldsTruth(prev, inGroup, done, cur);
    LinkParts(ts, pos, l);
    GroupParts(ts, pos + 1, o);
    InnerFollowsPrecedence(ts, pos + 2, depth + 1, o, rule);
    StepGroup(ts, pos, depth, prev, inGroup, l.isAnd, rule);
    var g := ParseBooleanExpressions(ts, pos + 2, depth + 1, rule).value;
    assert g.next == pos + 1 + |Spell(o)|;
    LinkFollowsPrecedence(ts, pos, depth, depth + 1, prev, inGroup, done, cur, l, g.value, g.next, rule);
  }

  /** The rest of the loop after the first link, whose operand was read as
      `x` and left the loop at `q` with `depth'` parentheses open. */
  lemma {:induction false} LinkFollowsPrecedence(ts: seq<Token>, pos: nat, depth: int, depth': int, prev: Node, inGroup: bool, done: bool, cur: bool, l: Links, x: Node, q: nat, rule: Rule)
    requires l.Link? && 0 <= depth <= depth' && Holds(prev, inGroup, done, cur) && Truth(x) == Some(Value(l.operand))
    requires q == pos + 1 + |Spell(l.operand)| && |SpellLinks(l)| == 1 + |Spell(l.operand)| + |SpellLinks(l.more)|
    requires KindsAt(ts, q, SpellLinks(l.more)) && Closes(ts, pos + |SpellLinks(l)|, depth)
    requires rule.Corrected? || (!inGroup && LeafFirstLinks(l))
    requires BooleanLoop(ts, pos, depth, prev, inGroup, rule) == BooleanLoop(ts, q, depth', Combine(prev, CombinatorFor(l.isAnd), x, inGroup), false, rule)
    ensures var r := BooleanLoop(ts, pos, depth, prev, inGroup, rule);
            r.Success? && r.value.next == After(ts, pos + |SpellLinks(l)|)
            && Truth(r.value.value) == Some(Precedence(done, cur, l))
    decreases l, 0
  {
    var v := Value(l.operand);
    var next := Combine(prev, CombinatorFor(l.isAnd), x, inGroup);
    CombineHolds(prev, inGroup, done, cur, l.isAnd, x, v);
    if l.isAnd {
      LinksFollowPrecedence(ts, q, depth', next, false, done, cur && v, l.more, rule);
    } else {
      LinksFollowPrecedence(ts, q, depth', next, false, done || cur, v, l.more, rule);
    }
  }

  /** A condition of literals, `and`, `or` and parentheses, at any nesting,
      parses into a tree whose truth is the usual reading with `and` binding
      tighter than `or`; the parse stops where the condition is closed. This
      holds of the corrected loop for every such condition, and of the loop as
      written when no condition inside starts with a parenthesised group. */
  lemma {:induction false} InnerFollowsPrecedence(ts: seq<Token>, pos: nat, depth: int, c: Operand, rule: Rule)
    requires c.Group? && 0 <= depth && KindsAt(ts, pos, Inner(c)) && Closes(ts, pos + |Inner(c)|, depth)
    requires rule.Corrected? || LeafFirst(c)
    ensures var r := ParseBooleanExpressions(ts, pos, depth, rule);
            r.Success? && r.value.next == After(ts, pos + |Inner(c)|) && Truth(r.value.value) == Some(Value(c))
    decreases c, 1
  {
    var f := c.first;
    KindsSplit(ts, pos, Spell(f), SpellLinks(c.rest));
    var q := pos + |Spell(f)|;
    assert q + |SpellLinks(c.rest)| == pos + |Inner(c)|;
    if f.Leaf? {
      LeafParts(ts, pos, f);
      FirstLeaf(ts, pos, depth, f.b, rule);
      assert Value(c) == Precedence(false, f.b, c.rest);
      LinksFollowPrecedence(ts, q, depth, BooleanLiteral(f.b), false, false, f.b, c.rest, rule);
    } else {
      GroupFirstFollowsPrecedence(ts, pos, depth, c);
    }
  }

  /** A condition whose first operand is parenthesised, under the corrected
      loop: the group is read whole and the loop goes on with it as one operand. */
  lemma {:induction false} GroupFirstFollowsPrecedence(ts: seq<Token>, pos: nat, depth: int, c: Operand)
    requires c.Group? && c.first.Group? && 0 <= depth
    requires KindsAt(ts, pos, Spell(c.first)) && KindsAt(ts, pos + |Spell(c.first)|, SpellLinks(c.rest))
    requires Closes(ts, pos + |Inner(c)|, depth)
    ensures var r := ParseBooleanExpressions(ts, pos, depth, Corrected);
            r.Success? && r.value.next == After(ts, pos + |Inner(c)|) && Truth(r.value.value) == Some(Value(c))
    decreases c, 0
  {
    var f := c.first;
    GroupParts(ts, pos, f);
    InnerFollowsPrecedence(ts, pos + 1, depth + 1, f, Corrected);
    FirstGroup(ts, pos, depth, Corrected);
    var g := ParseBooleanExpressions(ts, pos + 1, depth + 1, Corrected).value;
    LinksFollowPrecedence(ts, pos + |Spell(f)|, depth + 1, g.value, true, false, Value(f), c.rest, Corrected);
  }

  /** The precedence theorem for the parser as written, at the top of an
      `if`: a condition in which no condition starts with a parenthesised
      group, up to `then`, parses into a tree whose truth is the usual
      reading, and the parse stops at the `then`. */
  lemma ConditionFollowsPrecedence(ts: seq<Token>, pos: nat, c: Operand)
    requires c.Group? && LeafFirst(c) && KindsAt(ts, pos, Inner(c))
    requires pos + |Inner(c)| < |ts| && ts[pos + |Inner(c)|].kind.Then?
    ensures var r := ParseBooleanExpressions(ts, pos, 0, AsWritten);
            r.Success? && r.value.next == pos + |Inner(c)| && Truth(r.value.value) == Some(Value(c))
  {
    InnerFollowsPrecedence(ts, pos, 0, c, AsWritten);
  }

  //#endregion

  //#region Condition shapes and errors

  /** A combinator with nothing before it is an error at the combinator, so
      `not` is not a prefix operator. */
  lemma CombinatorFirst(ts: seq<Token>, pos: nat, depth: int, rule: Rule)
    requires pos < |ts| && CombinatorOf(ts[pos].kind).Some?
    ensures ParseBooleanExpressions(ts, pos, depth, rule) == Failure(ParserError(NothingBefore, ts[pos].position))
  {
    assert CombinatorStep(ts, pos, CondState(Missing, depth, false), rule) == Failure(ParserError(NothingBefore, ts[pos].position));
    assert BooleanLoop(ts, pos, depth, Missing, false, rule) == Combinator(ts, pos, depth, Missing, false, rule);
  }

  /** `not` joins two operands like `and` and `or` do, as `a and not b`. */
  lemma NotIsBinary(ts: seq<Token>, pos: nat, depth: int, a: bool, b: bool, rule: Rule)
    requires pos + 2 < |ts| && IsLeaf(ts[pos], a) && ts[pos + 1].kind.Not? && IsLeaf(ts[pos + 2], b)
    requires 0 <= depth && Closes(ts, pos + 3, depth)
    ensures var r := ParseBooleanExpressions(ts, pos, depth, rule);
            r == Success(Parsed(BooleanExpressionGroup(BooleanLiteral(a), BinaryOperator.Not, BooleanLiteral(b)), After(ts, pos + 3)))
            && Truth(r.value.value) == Some(a && !b)
  {
    FirstLeaf(ts, pos, depth, a, rule);
    var leaf := BooleanLiteral(b);
    assert ParseBooleanExpression(ts, pos + 2) == Success(Parsed(leaf, pos + 3));
    var next := BooleanExpressionGroup(BooleanLiteral(a), BinaryOperator.Not, leaf);
    assert CombinatorStep(ts, pos + 1, CondState(BooleanLiteral(a), depth, false), rule) == Success(Parsed(CondState(next, depth, false), pos + 3));
    LoopCloses(ts, pos + 3, depth, next, false, rule);
  }

  /** A `)` ends the loop and is consumed when a parenthesis is open, and is
      an error when none is. */
  lemma CloseParenthesis(ts: seq<Token>, pos: nat, depth: int, prev: Node, inGroup: bool, rule: Rule)
    requires pos < |ts| && ts[pos].kind.ParenClose?
    ensures var r := BooleanLoop(ts, pos, depth, prev, inGroup, rule);
            (1 <= depth ==> r == Success(Parsed(prev, pos + 1)))
            && (depth < 1 ==> r == Failure(ParserError(MismatchedParentheses, ts[pos].position)))
  {
  }

  /** The open-parenthesis count a group adds is not given back when the
      group closes, so at the top level a `)` after a group passes as
      closing: `( true ) )` is a condition. */
  lemma SurplusCloseAfterGroup(ts: seq<Token>)
    requires |ts| == 4 && ts[0].kind.ParenOpen? && ts[1].kind.True? && ts[2].kind.ParenClose? && ts[3].kind.ParenClose?
    ensures ParseBooleanExpressions(ts, 0, 0, AsWritten) == Success(Parsed(BooleanLiteral(true), 4))
  {
    assert ParseBooleanExpression(ts, 1) == Success(Parsed(BooleanLiteral(true), 2));
    assert BooleanLoop(ts, 2, 1, BooleanLiteral(true), false, AsWritten) == Success(Parsed(BooleanLiteral(true), 3));
    assert BooleanLoop(ts, 1, 1, Missing, false, AsWritten) == BooleanTerm(ts, 1, 1, AsWritten);
    assert ParseBooleanExpressions(ts, 1, 1, AsWritten) == Success(Parsed(BooleanLiteral(true), 3));
    assert BooleanLoop(ts, 3, 1, BooleanLiteral(true), true, AsWritten) == Success(Parsed(BooleanLiteral(true), 4));
  }

  /** A parenthesised group followed by `and` stays whole: it is the left
      operand of the new group, with its own tree untouched. */
  lemma GroupKeptWhole(ts: seq<Token>, pos: nat, depth: int, o: Operand, b: bool, rule: Rule)
    requires o.Group? && 0 <= depth && KindsAt(ts, pos, Spell(o)) && (rule.Corrected? || LeafFirst(o))
    requires var q := pos + |Spell(o)|;
             q + 1 < |ts| && ts[q].kind.And? && IsLeaf(ts[q + 1], b) && Closes(ts, q + 2, depth)
    ensures var g := ParseBooleanExpressions(ts, pos + 1, depth + 1, rule);
            var q := pos + |Spell(o)|;
            g.Success? && Truth(g.value.value) == Some(Value(o))
            && ParseBooleanExpressions(ts, pos, depth, rule)
               == Success(Parsed(BooleanExpressionGroup(g.value.value, BinaryOperator.And, BooleanLiteral(b)), After(ts, q + 2)))
  {
    GroupParts(ts, pos, o);
    InnerFollowsPrecedence(ts, pos + 1, depth + 1, o, rule);
    FirstGroup(ts, pos, depth, rule);
    var g := ParseBooleanExpressions(ts, pos + 1, depth + 1, rule).value;
    var q := pos + |Spell(o)|;
    StepLeaf(ts, q, depth + 1, g.value, true, true, b, rule);
    LoopCloses(ts, q + 2, depth + 1, BooleanExpressionGroup(g.value, BinaryOperator.And, BooleanLiteral(b)), FlagAfterPlain(rule, true), rule);
  }

  /** `true` and `false` are leaves by themselves: nothing after them is
      read as part of the leaf. */
  lemma LiteralIsLeaf(ts: seq<Token>, pos: nat, b: bool)
    requires pos < |ts| && IsLeaf(ts[pos], b)
    ensures ParseBooleanExpression(ts, pos) == Success(Parsed(BooleanLiteral(b), pos + 1))
  {
  }

  /** After a string or number operand: a combinator, `)` or the end leaves
      it alone; a comparator makes a comparison with it on the left; any
      other token is an error at that token. */
  lemma AfterLiteralOperand(ts: seq<Token>, pos: nat)
    requires pos < |ts| && (ts[pos].kind.String? || ts[pos].kind.Number?)
    ensures var r := ParseBooleanExpression(ts, pos);
            var left := if ts[pos].kind.String? then StringLiteral(ts[pos].value) else NumericLiteral(ts[pos].value);
            (pos + 1 == |ts| || EndsOperand(ts[pos + 1].kind) ==> r == Success(Parsed(left, pos + 1)))
            && (pos + 1 < |ts| && ComparatorOf(ts[pos + 1].kind).Some? && r.Success? ==>
                  r.value.value.BooleanExpression? && r.value.value.left == left
                  && r.value.value.comparator == ComparatorOf(ts[pos + 1].kind).value)
            && (pos + 1 < |ts| && ComparatorOf(ts[pos + 1].kind).None? && !EndsOperand(ts[pos + 1].kind) ==>
                  r == Failure(ParserError(ComparatorExpected, ts[pos + 1].position)))
  {
  }

  /** The right side of a comparison is a literal or a reference; anything
      else is an error at it. */
  lemma ComparandShape(ts: seq<Token>, pos: nat)
    requires pos <= |ts|
    ensures var r := ParseComparand(ts, pos);
            (r.Success? ==> var n := r.value.value;
               n.StringLiteral? || n.NumericLiteral? || n.BooleanLiteral? || n.Identifier? || n.PropertyAccess?)
            && (pos < |ts| && !IsLiteral(ts[pos].kind) && !ts[pos].kind.Identifier? ==>
                  r == Failure(ParserError(ConditionExpected, ts[pos].position)))
  {
    if pos < |ts| && ts[pos].kind.Identifier? {
      ReferenceShape(ts, pos);
    }
  }

  //#endregion

  //#region Expressions

  /** A number run from `pos`: `k` numbers each followed by an arithmetic
      operator, then a last number. */
  predicate NumberRun(ts: seq<Token>, pos: nat, k: nat)
    decreases k
  {
    pos + 2 * k < |ts| && ts[pos + 2 * k].kind.Number?
    && (k > 0 ==> ts[pos + 2 * k - 2].kind.Number? && MathOperatorOf(ts[pos + 2 * k - 1].kind).Some?)
    && (k > 0 ==> ts[pos].kind.Number? && MathOperatorOf(ts[pos + 1].kind).Some? && NumberRun(ts, pos + 2, k - 1))
  }

  /** What may follow an expression without being read into it. */
  predicate EndsExpression(ts: seq<Token>, q: nat) {
    q == |ts| || (q < |ts| && MathOperatorOf(ts[q].kind).None? && !StartsCondition(ts[q].kind))
  }

  /** An arithmetic chain returns the LAST Aggregate it creates: the one
      joining the last two numbers; the earlier ones hang off the chain but
      are not part of the result. With no operator the number itself is
      returned. */
  lemma {:induction false} ChainReturnsLast(ts: seq<Token>, pos: nat, k: nat, last: Option<Node>, chain: Option<Chain>)
    requires NumberRun(ts, pos, k) && EndsExpression(ts, pos + 2 * k + 1)
    ensures var q := pos + 2 * k;
            var tail := NumericLiteral(ts[q].value);
            ExpressionLoop(ts, pos, last, chain)
            == Success(Parsed(
                 if k == 0 then Finish(tail, chain)
                 else Aggregate(NumericLiteral(ts[q - 2].value), MathOperatorOf(ts[q - 1].kind).value, tail),
                 q + 1))
    decreases k
  {
    var t := NumericLiteral(ts[pos].value);
    assert ParseTerm(ts, pos) == Success(Parsed(t, pos + 1));
    if k > 0 {
      var op := MathOperatorOf(ts[pos + 1].kind).value;
      assert AfterTerm(ts, pos, pos + 1, t, chain) == ExpressionLoop(ts, pos + 2, Some(t), Some(Chain(t, op)));
      ChainReturnsLast(ts, pos + 2, k - 1, Some(t), Some(Chain(t, op)));
    }
  }

  /** The two-term case: `a op b` is Aggregate(a, op, b). */
  lemma BinaryAggregate(ts: seq<Token>, pos: nat)
    requires NumberRun(ts, pos, 1) && EndsExpression(ts, pos + 3)
    ensures ParseExpression(ts, pos)
            == Success(Parsed(Aggregate(NumericLiteral(ts[pos].value), MathOperatorOf(ts[pos + 1].kind).value, NumericLiteral(ts[pos + 2].value)), pos + 3))
  {
    ChainReturnsLast(ts, pos, 1, None, None);
  }

  /** A comparator or combinator after a term rereads the expression from
      that term's start as a condition. */
  lemma ConditionRewinds(ts: seq<Token>, pos: nat, t: Node, q: nat)
    requires pos < |ts| && ParseTerm(ts, pos) == Success(Parsed(t, q))
    requires q < |ts| && StartsCondition(ts[q].kind)
    ensures ParseExpression(ts, pos) == ParseBooleanExpressions(ts, pos, 0, AsWritten)
  {
    assert MathOperatorOf(ts[q].kind).None?;
    assert AfterTerm(ts, pos, q, t, None) == ParseBooleanExpressions(ts, pos, 0, AsWritten);
  }

  /** The reread starts at the term before the comparator, not at the start
      of the expression: in `1 + 2 == 3` the `1 +` is dropped and the result
      is the condition `2 == 3`. */
  lemma RewindDropsChain(ts: seq<Token>, pos: nat)
    requires NumberRun(ts, pos, 1) && pos + 3 < |ts| && StartsCondition(ts[pos + 3].kind)
    ensures ParseExpression(ts, pos) == ParseBooleanExpressions(ts, pos + 2, 0, AsWritten)
  {
    var a, b := NumericLiteral(ts[pos].value), NumericLiteral(ts[pos + 2].value);
    var op := MathOperatorOf(ts[pos + 1].kind).value;
    assert ParseTerm(ts, pos) == Success(Parsed(a, pos + 1));
    assert ExpressionLoop(ts, pos, None, None) == ExpressionLoop(ts, pos + 2, Some(a), Some(Chain(a, op)));
    assert ParseTerm(ts, pos + 2) == Success(Parsed(b, pos + 3));
    assert MathOperatorOf(ts[pos + 3].kind).None?;
    assert AfterTerm(ts, pos + 2, pos + 3, b, Some(Chain(a, op))) == ParseBooleanExpressions(ts, pos + 2, 0, AsWritten);
  }

  //#endregion

  //#region References

  /** A reference is an Identifier when no `.` or `[` follows its name, and
      otherwise a PropertyAccess on that name with at least one step. */
  lemma ReferenceShape(ts: seq<Token>, pos: nat)
    requires pos < |ts|
    ensures var r := ParseReference(ts, pos);
            var name := Spelling(ts[pos].value);
            (pos + 1 == |ts| || (!ts[pos + 1].kind.Dot? && !ts[pos + 1].kind.SquareOpen?) ==>
               r == Success(Parsed(Node.Identifier(name), pos + 1)))
            && (r.Success? ==>
                  r.value.value == Node.Identifier(name)
                  || (r.value.value.PropertyAccess? && r.value.value.objectName == name && |r.value.value.steps| > 0))
  {
  }

  /** `k` steps `.name` from `pos`. */
  predicate DotRun(ts: seq<Token>, pos: nat, k: nat)
    decreases k
  {
    k > 0 ==> pos + 1 < |ts| && ts[pos].kind.Dot? && ts[pos + 1].kind.Identifier? && DotRun(ts, pos + 2, k - 1)
  }

  /** The names of a run of `.name` steps, in source order. */
  function DotNames(ts: seq<Token>, pos: nat, k: nat): (names: seq<Node>)
    requires DotRun(ts, pos, k)
    ensures |names| == k
    decreases k
  {
    if k == 0 then [] else [Node.Identifier(Spelling(ts[pos + 1].value))] + DotNames(ts, pos + 2, k - 1)
  }

  /** The steps loop appends the names of a dotted path in source order and
      stops at the first token that is neither `.` nor `[`. */
  lemma {:induction false} DottedSteps(ts: seq<Token>, pos: nat, k: nat, steps: seq<Node>)
    requires DotRun(ts, pos, k) && pos + 2 * k <= |ts|
    requires pos + 2 * k == |ts| || (!ts[pos + 2 * k].kind.Dot? && !ts[pos + 2 * k].kind.SquareOpen?)
    ensures ReferenceSteps(ts, pos, steps) == Success(Parsed(steps + DotNames(ts, pos, k), pos + 2 * k))
    decreases k
  {
    if k == 0 {
      AppendNothing(steps);
      StepsStop(ts, pos, steps);
    } else {
      var step := Node.Identifier(Spelling(ts[pos + 1].value));
      DotStep(ts, pos, steps);
      DottedSteps(ts, pos + 2, k - 1, steps + [step]);
      assert DotNames(ts, pos, k) == [step] + DotNames(ts, pos + 2, k - 1);
      AppendCons(steps, step, DotNames(ts, pos + 2, k - 1));
    }
  }

  lemma StepsStop(ts: seq<Token>, pos: nat, steps: seq<Node>)
    requires pos == |ts| || (pos < |ts| && !ts[pos].kind.Dot? && !ts[pos].kind.SquareOpen?)
    ensures ReferenceSteps(ts, pos, steps) == Success(Parsed(steps, pos))
  {
  }

  lemma DotStep(ts: seq<Token>, pos: nat, steps: seq<Node>)
    requires pos + 1 < |ts| && ts[pos].kind.Dot? && ts[pos + 1].kind.Identifier?
    ensures ReferenceSteps(ts, pos, steps) == ReferenceSteps(ts, pos + 2, steps + [Node.Identifier(Spelling(ts[pos + 1].value))])
  {
  }

  /** `a.b.c` is PropertyAccess(a, [b, c]): the steps keep source order. */
  lemma DottedPath(ts: seq<Token>, pos: nat, k: nat)
    requires 0 < k && pos < |ts| && DotRun(ts, pos + 1, k) && pos + 1 + 2 * k <= |ts|
    requires pos + 1 + 2 * k == |ts| || (!ts[pos + 1 + 2 * k].kind.Dot? && !ts[pos + 1 + 2 * k].kind.SquareOpen?)
    ensures ParseReference(ts, pos) == Success(Parsed(PropertyAccess(Spelling(ts[pos].value), DotNames(ts, pos + 1, k)), pos + 1 + 2 * k))
  {
    DottedSteps(ts, pos + 1, k, []);
    AppendEmpty(DotNames(ts, pos + 1, k));
  }

  /** A `.` must be followed by an identifier. */
  lemma DotNeedsIdentifier(ts: seq<Token>, pos: nat)
    requires pos + 2 < |ts| && ts[pos + 1].kind.Dot? && !ts[pos + 2].kind.Identifier?
    ensures ParseReference(ts, pos) == Failure(ParserError(IdentifierExpected, ts[pos + 2].position))
  {
  }

  /** `a[n]` is PropertyAccess(a, [IndexAccess(n)]). */
  lemma IndexStep(ts: seq<Token>, pos: nat)
    requires pos + 3 < |ts| && ts[pos + 1].kind.SquareOpen? && ts[pos + 2].kind.Number? && ts[pos + 3].kind.SquareClose?
    requires pos + 4 == |ts| || (!ts[pos + 4].kind.Dot? && !ts[pos + 4].kind.SquareOpen?)
    ensures ParseReference(ts, pos)
            == Success(Parsed(PropertyAccess(Spelling(ts[pos].value), [IndexAccess(NumericLiteral(ts[pos + 2].value))]), pos + 4))
  {
    var n := NumericLiteral(ts[pos + 2].value);
    ChainReturnsLast(ts, pos + 2, 0, None, None);
    assert ParseExpression(ts, pos + 2) == Success(Parsed(n, pos + 3));
    assert ReferenceSteps(ts, pos + 4, [IndexAccess(n)]) == Success(Parsed([IndexAccess(n)], pos + 4));
    assert [] + [IndexAccess(n)] == [IndexAccess(n)];
    assert IndexEnd(ts, pos + 3, [], n) == Success(Parsed([IndexAccess(n)], pos + 4));
    assert ReferenceSteps(ts, pos + 1, []) == Success(Parsed([IndexAccess(n)], pos + 4));
  }

  /** An index expression must be closed by `]`. */
  lemma IndexNeedsClose(ts: seq<Token>, pos: nat)
    requires pos + 3 < |ts| && ts[pos + 1].kind.SquareOpen? && ts[pos + 2].kind.Number?
    requires !ts[pos + 3].kind.SquareClose? && EndsExpression(ts, pos + 3)
    ensures ParseReference(ts, pos) == Failure(ParserError(SquareCloseExpected, ts[pos + 3].position))
  {
    var n := NumericLiteral(ts[pos + 2].value);
    ChainReturnsLast(ts, pos + 2, 0, None, None);
    assert ParseExpression(ts, pos + 2) == Success(Parsed(n, pos + 3));
    assert ReferenceSteps(ts, pos + 1, []) == Failure(ParserError(SquareCloseExpected, ts[pos + 3].position));
  }

  //#endregion

  //#region Statements

  /** Where the arguments loop goes on after an argument that ended at `q`:
      past the comma after it when there is one. */
  function ArgumentNext(ts: seq<Token>, q: nat): nat
    requires q < |ts|
  {
    if ts[q].kind.Comma? then q + 1 else q
  }

  /** From `pos`, the arguments `args`, each an expression as parseExpression
      reads it, each followed by an optional comma, then `)`. */
  predicate Arguments(ts: seq<Token>, pos: nat, args: seq<Node>)
    decreases |args|
  {
    pos < |ts|
    && if args == [] then ts[pos].kind.ParenClose?
       else
         !ts[pos].kind.ParenClose?
         && var e := ParseExpression(ts, pos);
            e.Success? && e.value.value == args[0] && e.value.next < |ts|
            && Arguments(ts, ArgumentNext(ts, e.value.next), args[1..])
  }

  /** The arguments loop keeps its arguments in source order, skips a comma
      after an argument, a trailing one included, and consumes the `)`. */
  lemma {:induction false} ArgumentsInOrder(ts: seq<Token>, pos: nat, name: string, parameters: seq<Node>, args: seq<Node>)
    requires Arguments(ts, pos, args)
    ensures var r := ArgumentLoop(ts, pos, name, parameters);
            r.Success? && r.value.value == FunctionCall(name, parameters + args)
            && 0 < r.value.next && ts[r.value.next - 1].kind.ParenClose?
    decreases |args|
  {
    if args == [] {
      AppendNothing(parameters);
    } else {
      var q := ArgumentNext(ts, ParseExpression(ts, pos).value.next);
      ArgumentStep(ts, pos, name, parameters, args);
      ArgumentsInOrder(ts, q, name, parameters + [args[0]], args[1..]);
      AppendFirst(parameters, args);
    }
  }

  /** One argument, and the comma after it when there is one. */
  lemma ArgumentStep(ts: seq<Token>, pos: nat, name: string, parameters: seq<Node>, args: seq<Node>)
    requires Arguments(ts, pos, args) && args != []
    ensures var q := ArgumentNext(ts, ParseExpression(ts, pos).value.next);
            ArgumentLoop(ts, pos, name, parameters) == ArgumentLoop(ts, q, name, parameters + [args[0]])
  {
  }

  /** `f(a, b,)` as a statement: a function call named `f` with the
      arguments in order. */
  lemma CallStatement(ts: seq<Token>, pos: nat, args: seq<Node>)
    requires pos + 1 < |ts| && ts[pos + 1].kind.ParenOpen? && Arguments(ts, pos + 2, args)
    ensures var r := ParseOperation(ts, pos);
            r.Success? && r.value.value == FunctionCall(Spelling(ts[pos].value), args)
  {
    ArgumentsInOrder(ts, pos + 2, Spelling(ts[pos].value), [], args);
    AppendEmpty(args);
  }

  /** A reference statement must continue with `=`, `+=` or `-=`. */
  lemma AssignmentNeedsOperator(ts: seq<Token>, pos: nat)
    requires pos + 1 < |ts| && ts[pos].kind.Identifier?
    requires var k := ts[pos + 1].kind; !k.ParenOpen? && !k.Dot? && !k.SquareOpen? && AssignmentOf(k).None?
    ensures ParseOperation(ts, pos) == Failure(ParserError(AssignmentOperatorExpected, ts[pos + 1].position))
  {
    ReferenceShape(ts, pos);
  }

  /** `x = n`, `x += n`, `x -= n`: an Operation on the Identifier `x`. */
  lemma SimpleAssignment(ts: seq<Token>, pos: nat)
    requires pos + 2 < |ts| && ts[pos].kind.Identifier? && AssignmentOf(ts[pos + 1].kind).Some?
    requires ts[pos + 2].kind.Number? && EndsExpression(ts, pos + 3)
    ensures ParseOperation(ts, pos)
            == Success(Parsed(Operation(Node.Identifier(Spelling(ts[pos].value)), AssignmentOf(ts[pos + 1].kind).value,
                                        NumericLiteral(ts[pos + 2].value)), pos + 3))
  {
    ReferenceShape(ts, pos);
    ChainReturnsLast(ts, pos + 2, 0, None, None);
  }

  /** A string literal as the last token reads past the end: the check for a
      following `+` looks at a token that is not there. */
  lemma StringLastReadsPastEnd(ts: seq<Token>)
    requires 0 < |ts| && ts[|ts| - 1].kind.String?
    ensures ParseString(ts, |ts| - 1) == Failure(ReadPastEnd)
    ensures ParseExpression(ts, |ts| - 1) == Failure(ReadPastEnd)
  {
    assert ParseTerm(ts, |ts| - 1) == Failure(ReadPastEnd);
  }

  //#endregion

  //#region Strings and objects

  /** From `pos`, the operands `parts` of a concatenation, each after a `+`:
      a literal token, read as a string literal of its value, or a reference;
      after them no `+` with a token after it. */
  predicate Concatenated(ts: seq<Token>, pos: nat, parts: seq<Node>)
    decreases |parts|
  {
    pos <= |ts|
    && if parts == [] then pos + 1 >= |ts| || !ts[pos].kind.Plus?
       else
         pos + 1 < |ts| && ts[pos].kind.Plus?
         && var operand := ts[pos + 1];
            if IsLiteral(operand.kind) then parts[0] == StringLiteral(operand.value) && Concatenated(ts, pos + 2, parts[1..])
            else
              operand.kind.Identifier?
              && var p := ParseReference(ts, pos + 1);
                 p.Success? && p.value.value == parts[0] && Concatenated(ts, p.value.next, parts[1..])
  }

  /** The concatenation loop keeps its operands in source order. */
  lemma {:induction false} ConcatenationInOrder(ts: seq<Token>, pos: nat, acc: seq<Node>, parts: seq<Node>)
    requires Concatenated(ts, pos, parts)
    ensures var r := ConcatenationLoop(ts, pos, acc);
            r.Success? && r.value.value == StringConcatenation(acc + parts)
    decreases |parts|
  {
    if parts == [] {
      AppendNothing(acc);
    } else {
      var operand := ts[pos + 1];
      if IsLiteral(operand.kind) {
        ConcatenationInOrder(ts, pos + 2, acc + [parts[0]], parts[1..]);
      } else {
        var p := ParseReference(ts, pos + 1);
        ConcatenationInOrder(ts, p.value.next, acc + [parts[0]], parts[1..]);
      }
      AppendFirst(acc, parts);
    }
  }

  /** `s + t + u` is StringConcatenation([s, t, u]), the first string first;
      a string with no `+` after it is the string literal alone. */
  lemma StringConcatenationInOrder(ts: seq<Token>, pos: nat, parts: seq<Node>)
    requires pos + 1 < |ts| && ts[pos].kind.String? && Concatenated(ts, pos + 1, parts)
    ensures var r := ParseString(ts, pos);
            var first := StringLiteral(ts[pos].value);
            r.Success?
            && r.value.value == (if ts[pos + 1].kind.Plus? then StringConcatenation([first] + parts) else first)
  {
    if ts[pos + 1].kind.Plus? {
      ConcatenationInOrder(ts, pos + 1, [StringLiteral(ts[pos].value)], parts);
    }
  }

  /** One `"name": expression` entry: a string, a colon and an expression,
      or an error at the token that is not the string or the colon. */
  lemma PropertyShape(ts: seq<Token>, pos: nat)
    requires pos < |ts|
    ensures var r := ParseProperty(ts, pos);
            (!ts[pos].kind.String? ==> r == Failure(ParserError(StringExpected, ts[pos].position)))
            && (ts[pos].kind.String? && pos + 1 < |ts| && !ts[pos + 1].kind.Colon? ==>
                  r == Failure(ParserError(ColonExpected, ts[pos + 1].position)))
            && (r.Success? ==>
                  pos + 1 < |ts| && ts[pos].kind.String? && ts[pos + 1].kind.Colon?
                  && var e := ParseExpression(ts, pos + 2);
                     e.Success? && r.value == Parsed(ObjectProperty(Spelling(ts[pos].value), e.value.value), e.value.next))
  {
  }

  /** From `pos`, the entries `props` of an object literal, each as
      ParseProperty reads it and each followed by one separator token, which
      may be any token but `}`; then `}`. The last entry may instead be
      followed by the `}` itself. */
  predicate Entries(ts: seq<Token>, pos: nat, props: seq<ObjectProperty>)
    decreases |props|
  {
    pos < |ts|
    && if props == [] then ts[pos].kind.BraceClose?
       else
         !ts[pos].kind.BraceClose?
         && var p := ParseProperty(ts, pos);
            p.Success? && p.value.value == props[0] && p.value.next < |ts|
            && if ts[p.value.next].kind.BraceClose? then |props| == 1
               else Entries(ts, p.value.next + 1, props[1..])
  }

  /** The object loop keeps its entries in source order, drops the
      separator after each (a comma or any other token), and consumes the `}`. */
  lemma {:induction false} EntriesInOrder(ts: seq<Token>, pos: nat, acc: seq<ObjectProperty>, props: seq<ObjectProperty>)
    requires Entries(ts, pos, props)
    ensures var r := PropertyLoop(ts, pos, acc);
            r.Success? && r.value.value == ObjectNode(acc + props)
            && 0 < r.value.next && ts[r.value.next - 1].kind.BraceClose?
    decreases |props|
  {
    if props == [] {
      AppendNothing(acc);
    } else {
      var p := ParseProperty(ts, pos).value;
      assert PropertyLoop(ts, pos, acc) == PropertyEnd(ts, p.next, acc + [props[0]]);
      if ts[p.next].kind.BraceClose? {
        assert acc + [props[0]] == acc + props;
      } else {
        EntriesInOrder(ts, p.next + 1, acc + [props[0]], props[1..]);
        AppendFirst(acc, props);
      }
    }
  }

  /** `{ "k1": v1, ..., "kn": vn }` is ObjectNode with the entries in order. */
  lemma ObjectInOrder(ts: seq<Token>, pos: nat, props: seq<ObjectProperty>)
    requires pos < |ts| && Entries(ts, pos + 1, props)
    ensures var r := ParseObject(ts, pos);
            r.Success? && r.value.value == ObjectNode(props)
  {
    EntriesInOrder(ts, pos + 1, [], props);
    AppendEmpty(props);
  }

  //#endregion

  //#region Operation lists


  /** From `pos`, the operations `ops`, each as parseOperation reads it,
      separated by `;`; after the last one a token that is not `;`, the end
      of input, or a `;` that ends the input. */
  predicate Separated(ts: seq<Token>, pos: nat, ops: seq<Node>)
    decreases |ops|
  {
    pos <= |ts|
    && if ops == [] then pos == |ts|
       else
         var p := ParseOperation(ts, pos);
         p.Success? && p.value.value == ops[0]
         && var q := p.value.next;
            if q < |ts| && ts[q].kind.SemiColon? then Separated(ts, q + 1, ops[1..])
            else |ops| == 1
  }

  /** The operations loop keeps its operations in source order and stops
      at the first token after an operation that is not `;`. */
  lemma {:induction false} OperationsInOrder(ts: seq<Token>, pos: nat, acc: seq<Node>, ops: seq<Node>)
    requires Separated(ts, pos, ops)
    ensures var r := OperationLoop(ts, pos, acc);
            r.Success? && r.value.value == acc + ops
            && (r.value.next == |ts| || !ts[r.value.next].kind.SemiColon?)
    decreases |ops|
  {
    if ops == [] {
      AppendNothing(acc);
    } else {
      SeparatedHead(ts, pos, ops);
      var q := ParseOperation(ts, pos).value.next;
      if q < |ts| && ts[q].kind.SemiColon? {
        OperationsNext(ts, pos, q, acc, ops);
        OperationsInOrder(ts, q + 1, acc + [ops[0]], ops[1..]);
        AppendFirst(acc, ops);
      } else {
        OperationsLast(ts, pos, acc, ops);
      }
    }
  }

  /** An operation followed by `;`: the loop goes on after the `;` with the
      operation appended. */
  lemma OperationsNext(ts: seq<Token>, pos: nat, q: nat, acc: seq<Node>, ops: seq<Node>)
    requires Separated(ts, pos, ops) && ops != []
    requires q == ParseOperation(ts, pos).value.next && q < |ts| && ts[q].kind.SemiColon?
    ensures Separated(ts, q + 1, ops[1..]) && OperationLoop(ts, pos, acc) == OperationLoop(ts, q + 1, acc + [ops[0]])
  {
    OperationStep(ts, pos, acc);
    OperationsContinue(ts, q, acc + [ops[0]]);
  }

  /** The first of the operations is where the list starts. */
  lemma SeparatedHead(ts: seq<Token>, pos: nat, ops: seq<Node>)
    requires Separated(ts, pos, ops) && ops != []
    ensures pos < |ts| && ParseOperation(ts, pos).Success? && ParseOperation(ts, pos).value.value == ops[0]
  {
  }

  /** The last operation, with no `;` after it. */
  lemma OperationsLast(ts: seq<Token>, pos: nat, acc: seq<Node>, ops: seq<Node>)
    requires Separated(ts, pos, ops) && ops != []
    requires var q := ParseOperation(ts, pos).value.next; !(q < |ts| && ts[q].kind.SemiColon?)
    ensures var q := ParseOperation(ts, pos).value.next;
            OperationLoop(ts, pos, acc) == Success(Parsed(acc + ops, q))
  {
    var q := ParseOperation(ts, pos).value.next;
    assert ops == [ops[0]];
    OperationStep(ts, pos, acc);
    OperationsStop(ts, q, acc + ops);
  }

  /** A `;` after an operation continues the loop after it. */
  lemma OperationsContinue(ts: seq<Token>, pos: nat, ops: seq<Node>)
    requires pos < |ts| && ts[pos].kind.SemiColon?
    ensures OperationEnd(ts, pos, ops) == OperationLoop(ts, pos + 1, ops)
  {
  }

  /** One operation of the loop. */
  lemma OperationStep(ts: seq<Token>, pos: nat, acc: seq<Node>)
    requires pos < |ts| && ParseOperation(ts, pos).Success?
    ensures var p := ParseOperation(ts, pos).value;
            OperationLoop(ts, pos, acc) == OperationEnd(ts, p.next, acc + [p.value])
  {
  }

  /** A token after an operation that is not `;` ends the list there, with
      the operations read so far. */
  lemma OperationsStop(ts: seq<Token>, pos: nat, ops: seq<Node>)
    requires pos <= |ts| && (pos == |ts| || !ts[pos].kind.SemiColon?)
    ensures OperationEnd(ts, pos, ops) == Success(Parsed(ops, pos))
  {
  }

  //#endregion

  //#region Arrays

  /** Tokens an array literal may hold between its brackets. */
  predicate Element(t: Token) {
    t.kind.String? || t.kind.Number? || t.kind.Comma?
  }

  /** The String and Number token values from `lo` up to `hi`, in order;
      commas and other tokens contribute nothing. */
  function ValuesBetween(ts: seq<Token>, lo: nat, hi: nat): (vs: seq<TokenValue>)
    requires lo <= hi <= |ts|
    ensures |vs| <= hi - lo
    decreases hi - lo
  {
    if lo == hi then []
    else if ts[lo].kind.String? || ts[lo].kind.Number? then [ts[lo].value] + ValuesBetween(ts, lo + 1, hi)
    else ValuesBetween(ts, lo + 1, hi)
  }

  /** Where the run of values and commas from `pos` ends. */
  function ArrayEnd(ts: seq<Token>, pos: nat): (e: nat)
    requires pos <= |ts|
    ensures pos <= e <= |ts| && (e < |ts| ==> !Element(ts[e]))
    ensures forall i :: pos <= i < e ==> Element(ts[i])
    decreases |ts| - pos
  {
    if pos == |ts| || !Element(ts[pos]) then pos else ArrayEnd(ts, pos + 1)
  }

  /** The array loop passes values and commas only, keeps exactly the String
      and Number values among them, in order, and stops after the `]` that
      ends them or at the end of input. */
  lemma {:induction false} ArrayKeepsValues(ts: seq<Token>, pos: nat, values: seq<TokenValue>, prevValue: bool)
    requires pos <= |ts|
    ensures var r := ArrayLoop(ts, pos, values, prevValue);
            var e := ArrayEnd(ts, pos);
            r.Success? ==>
              r.value.value == values + ValuesBetween(ts, pos, e)
              && (e < |ts| ==> ts[e].kind.SquareClose? && r.value.next == e + 1)
              && (e == |ts| ==> r.value.next == e)
    decreases |ts| - pos
  {
    if pos < |ts| && Element(ts[pos]) {
      var t := ts[pos];
      var e := ArrayEnd(ts, pos);
      assert e == ArrayEnd(ts, pos + 1);
      if t.kind.String? || t.kind.Number? {
        if !prevValue {
          ArrayKeepsValues(ts, pos + 1, values + [t.value], true);
          assert ValuesBetween(ts, pos, e) == [t.value] + ValuesBetween(ts, pos + 1, e);
          AppendCons(values, t.value, ValuesBetween(ts, pos + 1, e));
        }
      } else {
        ArrayKeepsValues(ts, pos + 1, values, false);
      }
    } else {
      assert ValuesBetween(ts, pos, pos) == [];
      AppendNothing(values);
    }
  }

  /** From `pos`, the values `vals` separated by commas, then `]`. */
  predicate Listing(ts: seq<Token>, pos: nat, vals: seq<TokenValue>)
    decreases |vals|
  {
    pos < |ts|
    && if vals == [] then ts[pos].kind.SquareClose?
       else
         (ts[pos].kind.String? || ts[pos].kind.Number?) && ts[pos].value == vals[0]
         && if |vals| == 1 then Listing(ts, pos + 1, [])
            else pos + 1 < |ts| && ts[pos + 1].kind.Comma? && Listing(ts, pos + 2, vals[1..])
  }

  lemma {:induction false} ListingParses(ts: seq<Token>, pos: nat, vals: seq<TokenValue>, acc: seq<TokenValue>)
    requires Listing(ts, pos, vals)
    ensures var r := ArrayLoop(ts, pos, acc, false);
            r.Success? && r.value.value == acc + vals
    decreases |vals|
  {
    if vals == [] {
      AppendNothing(acc);
    } else if |vals| == 1 {
      assert ArrayLoop(ts, pos, acc, false) == ArrayLoop(ts, pos + 1, acc + [vals[0]], true);
      assert acc + [vals[0]] == acc + vals;
    } else {
      assert ArrayLoop(ts, pos, acc, false) == ArrayLoop(ts, pos + 2, acc + [vals[0]], false);
      ListingParses(ts, pos + 2, vals[1..], acc + [vals[0]]);
      AppendFirst(acc, vals);
    }
  }

  /** Round trip: `[ v1 , ... , vn ]` parses to exactly `v1 ... vn`; `[]`
      to no values. */
  lemma ArrayRoundTrip(ts: seq<Token>, pos: nat, vals: seq<TokenValue>)
    requires pos < |ts| && ts[pos].kind.SquareOpen? && Listing(ts, pos + 1, vals)
    ensures var r := ParseArray(ts, pos);
            r.Success? && r.value.value == vals
  {
    ListingParses(ts, pos + 1, vals, []);
    AppendEmpty(vals);
  }

  /** Two values with no comma between them are an error at the second. */
  lemma ArrayMissingComma(ts: seq<Token>, pos: nat)
    requires pos + 2 < |ts| && ts[pos].kind.SquareOpen?
    requires (ts[pos + 1].kind.String? || ts[pos + 1].kind.Number?) && (ts[pos + 2].kind.String? || ts[pos + 2].kind.Number?)
    ensures ParseArray(ts, pos) == Failure(ParserError(MissingComma, ts[pos + 2].position))
  {
    assert ArrayLoop(ts, pos + 1, [], false) == ArrayLoop(ts, pos + 2, [ts[pos + 1].value], true);
  }

  /** A token that is no value, comma or `]` is an error at that token. */
  lemma ArrayRejects(ts: seq<Token>, pos: nat, values: seq<TokenValue>, prevValue: bool)
    requires pos < |ts| && !Element(ts[pos]) && !ts[pos].kind.SquareClose?
    ensures ArrayLoop(ts, pos, values, prevValue) == Failure(ParserError(ArrayElementExpected, ts[pos].position))
  {
  }

  //#endregion

  //#region Program

  /** The top-level loop does not move at a token that starts no statement,
      a line break among them: the parse would not end. */
  lemma LineBreakDiverges(ts: seq<Token>, pos: nat, statements: seq<Node>)
    requires pos < |ts| && ts[pos].kind.LineBreak?
    ensures ProgramLoop(ts, pos, statements) == Diverges(pos)
  {
  }

  /** What each kind of statement parses into. */
  predicate IsStatement(n: Node) {
    n.Branch? || n.Operation? || n.FunctionCall? || n.ForLoop?
  }

  lemma IfIsBranch(ts: seq<Token>, pos: nat)
    requires pos < |ts|
    ensures var r := ParseIfStatement(ts, pos);
            r.Success? ==> r.value.value.Branch?
  {
    var c := ParseBooleanExpressions(ts, pos + 1, 0, AsWritten);
    if c.Success? && c.value.next < |ts| && ts[c.value.next].kind.Then? {
      var b := ParseOperations(ts, c.value.next + 1);
      if b.Success? {
        assert IfElse(ts, c.value.value, b.value.value, b.value.next).Success? ==> IfElse(ts, c.value.value, b.value.value, b.value.next).value.value.Branch?;
      }
    }
  }

  /** The condition must be followed by `then`. */
  lemma IfNeedsThen(ts: seq<Token>, pos: nat)
    requires pos < |ts|
    ensures var c := ParseBooleanExpressions(ts, pos + 1, 0, AsWritten);
            c.Success? && c.value.next < |ts| && !ts[c.value.next].kind.Then? ==>
              ParseIfStatement(ts, pos) == Failure(ParserError(MissingThen, ts[c.value.next].position))
  {
  }

  lemma OperationIsStatement(ts: seq<Token>, pos: nat)
    requires pos <= |ts|
    ensures var r := ParseOperation(ts, pos);
            r.Success? ==> r.value.value.Operation? || r.value.value.FunctionCall?
  {
    if !(pos + 1 < |ts| && ts[pos + 1].kind.ParenOpen?) {
      var ref := ParseReference(ts, pos);
      if ref.Success? {
        assert ParseOperation(ts, pos) == Assignment(ts, ref.value.value, ref.value.next);
      }
    }
  }

  lemma ForIsLoop(ts: seq<Token>, pos: nat)
    requires pos < |ts|
    ensures var r := ParseForLoop(ts, pos);
            r.Success? ==> r.value.value.ForLoop?
  {
  }

  /** `if c then ops [else ops']` is Branch(c, ops, ops'): the condition is
      what parseBooleanExpressions reads after the `if`, the true branch what
      parseOperations reads after the `then`, and there is a false branch
      exactly when an `else` follows the true branch. */
  lemma IfParts(ts: seq<Token>, pos: nat)
    requires pos < |ts|
    ensures var r := ParseIfStatement(ts, pos);
            var c := ParseBooleanExpressions(ts, pos + 1, 0, AsWritten);
            r.Success? ==>
              c.Success? && c.value.next < |ts| && ts[c.value.next].kind.Then?
              && var body := ParseOperations(ts, c.value.next + 1);
                 var q := body.value.next;
                 body.Success? && r.value.value.Branch?
                 && r.value.value.condition == c.value.value
                 && r.value.value.condTrueBody == body.value.value
                 && (r.value.value.condFalseBody.Some? <==> q < |ts| && ts[q].kind.Else?)
                 && (r.value.value.condFalseBody.Some? ==>
                       var alt := ParseOperations(ts, q + 1);
                       alt.Success? && r.value.value.condFalseBody.value == alt.value.value && r.value.next == alt.value.next)
                 && (r.value.value.condFalseBody.None? ==> r.value.next == q)
  {
    var c := ParseBooleanExpressions(ts, pos + 1, 0, AsWritten);
    if c.Success? && c.value.next < |ts| && ts[c.value.next].kind.Then? {
      var body := ParseOperations(ts, c.value.next + 1);
      if body.Success? {
        assert ParseIfStatement(ts, pos) == IfElse(ts, c.value.value, body.value.value, body.value.next);
      }
    }
  }

  /** `for each r ops`, `for each [..] ops` and `for (n) ops` are ForLoop
      with the kind, the parameter and the body parseOperations reads after
      the header. */
  lemma ForParts(ts: seq<Token>, pos: nat)
    requires pos + 2 < |ts|
    ensures var r := ParseForLoop(ts, pos);
            r.Success? ==>
              r.value.value.ForLoop?
              && (ts[pos + 1].kind.Each? && ts[pos + 2].kind.Identifier? ==>
                    var ref := ParseReference(ts, pos + 2);
                    ref.Success?
                    && ForBody(ts, ForLoopType.Each, NodeParameter(ref.value.value), ref.value.next) == r)
              && (ts[pos + 1].kind.Each? && ts[pos + 2].kind.SquareOpen? ==>
                    var arr := ParseArray(ts, pos + 2);
                    arr.Success?
                    && ForBody(ts, ForLoopType.Each, ArrayParameter(arr.value.value), arr.value.next) == r)
              && (ts[pos + 1].kind.ParenOpen? ==>
                    var count := ParseExpression(ts, pos + 2);
                    count.Success? && count.value.next < |ts| && ts[count.value.next].kind.ParenClose?
                    && ForBody(ts, ForLoopType.For, NodeParameter(count.value.value), count.value.next + 1) == r)
  {
  }

  /** The body of a loop is what parseOperations reads after its header. */
  lemma ForBodyParts(ts: seq<Token>, loopType: ForLoopType, parameter: LoopParameter, pos: nat)
    requires pos <= |ts|
    ensures var r := ForBody(ts, loopType, parameter, pos);
            var body := ParseOperations(ts, pos);
            (r.Success? <==> body.Success?)
            && (r.Success? ==> r.value == Parsed(ForLoop(loopType, parameter, body.value.value), body.value.next))
  {
  }

  /** A parsed program lists its statements in source order, each a branch,
      an operation, a call or a loop. */
  lemma {:induction false} ProgramStatements(ts: seq<Token>, pos: nat, statements: seq<Node>)
    requires pos <= |ts| && forall i :: 0 <= i < |statements| ==> IsStatement(statements[i])
    ensures var p := ProgramLoop(ts, pos, statements);
            p.Program? ==> statements <= p.statements && forall i :: 0 <= i < |p.statements| ==> IsStatement(p.statements[i])
    decreases |ts| - pos
  {
    if pos < |ts| && StartsStatement(ts[pos].kind) {
      var r :=
        if ts[pos].kind.If? then ParseIfStatement(ts, pos)
        else if ts[pos].kind.Identifier? then ParseOperation(ts, pos)
        else ParseForLoop(ts, pos);
      if r.Success? {
        if ts[pos].kind.If? { IfIsBranch(ts, pos); }
        else if ts[pos].kind.Identifier? { OperationIsStatement(ts, pos); }
        else { ForIsLoop(ts, pos); }
        var more := statements + [r.value.value];
        assert ProgramLoop(ts, pos, statements) == ProgramLoop(ts, r.value.next, more);
        ProgramStatements(ts, r.value.next, more);
      }
    }
  }

  //#endregion

  //#region The group flag as written

  function Tok(k: TokenKind, p: nat): Token {
    Token(k, TextValue([]), p)
  }

  /** `( true ) or true and false` */
  const GroupThenPlain: seq<Token> :=
    [Tok(ParenOpen, 0), Tok(TokenKind.True, 1), Tok(ParenClose, 2), Tok(TokenKind.Or, 3),
     Tok(TokenKind.True, 4), Tok(TokenKind.And, 5), Tok(TokenKind.False, 6)]

  /** `( true or false ) and ( false )` */
  const GroupThenGroup: seq<Token> :=
    [Tok(ParenOpen, 0), Tok(TokenKind.True, 1), Tok(TokenKind.Or, 2), Tok(TokenKind.False, 3),
     Tok(ParenClose, 4), Tok(TokenKind.And, 5), Tok(ParenOpen, 6), Tok(TokenKind.False, 7), Tok(ParenClose, 8)]

  /** The leading `( true )` of GroupThenPlain is read whole and sets the flag. */
  lemma GroupThenPlainOpens()
    ensures BooleanLoop(GroupThenPlain, 0, 0, Missing, false, AsWritten)
            == BooleanLoop(GroupThenPlain, 3, 1, BooleanLiteral(true), true, AsWritten)
  {
    var ts := GroupThenPlain;
    assert ParseBooleanExpression(ts, 1) == Success(Parsed(BooleanLiteral(true), 2));
    assert ParseBooleanExpressions(ts, 1, 1, AsWritten) == Success(Parsed(BooleanLiteral(true), 3));
  }

  /** As written, the flag set by `( true )` survives the plain `or true`, so
      the later `and false` does not take `true` from the `or` group: the
      condition is `(true or true) and false`, false, where the usual
      reading `true or (true and false)` is true, as GroupThenPlainByPrecedence
      shows for the corrected step. */
  lemma FlagKeptAfterPlainTerm()
    ensures var t, f := BooleanLiteral(true), BooleanLiteral(false);
            var r := ParseBooleanExpressions(GroupThenPlain, 0, 0, AsWritten);
            r == Success(Parsed(BooleanExpressionGroup(BooleanExpressionGroup(t, BinaryOperator.Or, t), BinaryOperator.And, f), |GroupThenPlain|))
            && Truth(r.value.value) == Some(false)
  {
    var t, f := BooleanLiteral(true), BooleanLiteral(false);
    var whole := BooleanExpressionGroup(BooleanExpressionGroup(t, BinaryOperator.Or, t), BinaryOperator.And, f);
    GroupThenPlainOpens();
    GroupThenPlainSteps();
    LoopCloses(GroupThenPlain, 7, 1, whole, true, AsWritten);
  }

  /** The plain `or true and false` after the group, with the flag kept. */
  lemma GroupThenPlainSteps()
    ensures var t, f := BooleanLiteral(true), BooleanLiteral(false);
            BooleanLoop(GroupThenPlain, 3, 1, t, true, AsWritten)
            == BooleanLoop(GroupThenPlain, 7, 1, BooleanExpressionGroup(BooleanExpressionGroup(t, BinaryOperator.Or, t), BinaryOperator.And, f), true, AsWritten)
  {
    var ts := GroupThenPlain;
    var t, f := BooleanLiteral(true), BooleanLiteral(false);
    var g := BooleanExpressionGroup(t, BinaryOperator.Or, t);
    StepLeaf(ts, 3, 1, t, true, false, true, AsWritten);
    assert Combine(t, BinaryOperator.Or, t, true) == g;
    StepLeaf(ts, 5, 1, g, true, true, false, AsWritten);
    assert Combine(g, BinaryOperator.And, f, true) == BooleanExpressionGroup(g, BinaryOperator.And, f);
  }

  /** The corrected parse of `( true ) or true and false` is true. */
  lemma GroupThenPlainByPrecedence()
    ensures var r := ParseBooleanExpressions(GroupThenPlain, 0, 0, Corrected);
            r.Success? && r.value.next == |GroupThenPlain| && Truth(r.value.value) == Some(true)
  {
    var ts := GroupThenPlain;
    var c := Group(Group(Leaf(true), End), Link(false, Leaf(true), Link(true, Leaf(false), End)));
    assert Inner(c) == [ParenOpen, TokenKind.True, ParenClose, TokenKind.Or, TokenKind.True, TokenKind.And, TokenKind.False];
    InnerFollowsPrecedence(ts, 0, 0, c, Corrected);
  }

  /** The first group of `( true or false ) and ( false )` is read whole and
      sets the flag. */
  lemma GroupThenGroupOpens()
    ensures BooleanLoop(GroupThenGroup, 0, 0, Missing, false, AsWritten)
            == BooleanLoop(GroupThenGroup, 5, 1, BooleanExpressionGroup(BooleanLiteral(true), BinaryOperator.Or, BooleanLiteral(false)), true, AsWritten)
  {
    GroupThenGroupFirst();
  }

  /** The inside of the first group, `true or false`, up to its `)`. */
  lemma GroupThenGroupFirst()
    ensures ParseBooleanExpressions(GroupThenGroup, 1, 1, AsWritten)
            == Success(Parsed(BooleanExpressionGroup(BooleanLiteral(true), BinaryOperator.Or, BooleanLiteral(false)), 5))
  {
    var ts := GroupThenGroup;
    var left := BooleanExpressionGroup(BooleanLiteral(true), BinaryOperator.Or, BooleanLiteral(false));
    FirstLeaf(ts, 1, 1, true, AsWritten);
    StepLeaf(ts, 2, 1, BooleanLiteral(true), false, false, false, AsWritten);
    LoopCloses(ts, 4, 1, left, false, AsWritten);
  }

  /** As written, a `(` after `and` clears the flag before the steal is
      decided, so `and ( false )` takes `false` from inside the group
      `( true or false )`: the condition is `true or (false and false)`,
      true, where the parenthesised reading `(true or false) and false` is
      false, as GroupThenGroupByPrecedence shows for the corrected step. */
  lemma FlagClearedBeforeGroup()
    ensures var t, f := BooleanLiteral(true), BooleanLiteral(false);
            var r := ParseBooleanExpressions(GroupThenGroup, 0, 0, AsWritten);
            r == Success(Parsed(BooleanExpressionGroup(t, BinaryOperator.Or, BooleanExpressionGroup(f, BinaryOperator.And, f)), |GroupThenGroup|))
            && Truth(r.value.value) == Some(true)
  {
    var t, f := BooleanLiteral(true), BooleanLiteral(false);
    GroupThenGroupOpens();
    GroupThenGroupSteps();
    LoopCloses(GroupThenGroup, 9, 2, BooleanExpressionGroup(t, BinaryOperator.Or, BooleanExpressionGroup(f, BinaryOperator.And, f)), false, AsWritten);
  }

  /** The `and ( false )` after the first group, with the flag cleared first. */
  lemma GroupThenGroupSteps()
    ensures var t, f := BooleanLiteral(true), BooleanLiteral(false);
            BooleanLoop(GroupThenGroup, 5, 1, BooleanExpressionGroup(t, BinaryOperator.Or, f), true, AsWritten)
            == BooleanLoop(GroupThenGroup, 9, 2, BooleanExpressionGroup(t, BinaryOperator.Or, BooleanExpressionGroup(f, BinaryOperator.And, f)), false, AsWritten)
  {
    var ts := GroupThenGroup;
    var t, f := BooleanLiteral(true), BooleanLiteral(false);
    assert ParseBooleanExpression(ts, 7) == Success(Parsed(f, 8));
    assert ParseBooleanExpressions(ts, 7, 2, AsWritten) == Success(Parsed(f, 9));
    StepGroup(ts, 5, 1, BooleanExpressionGroup(t, BinaryOperator.Or, f), true, true, AsWritten);
  }

  /** The corrected parse of `( true or false ) and ( false )` is false. */
  lemma GroupThenGroupByPrecedence()
    ensures var r := ParseBooleanExpressions(GroupThenGroup, 0, 0, Corrected);
            r.Success? && r.value.next == |GroupThenGroup| && Truth(r.value.value) == Some(false)
  {
    var ts := GroupThenGroup;
    var c := Group(Group(Leaf(true), Link(false, Leaf(false), End)), Link(true, Group(Leaf(false), End), End));
    assert Inner(c) == [ParenOpen, TokenKind.True, TokenKind.Or, TokenKind.False, ParenClose, TokenKind.And, ParenOpen, TokenKind.False, ParenClose];
    InnerFollowsPrecedence(ts, 0, 0, c, Corrected);
  }

  //#endregion
}
