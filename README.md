# A rule language: tokenizer, parser and engine in Dafny

This project models the pipeline of a small rule language for scripted
network costs (`$cost = 2`, `if a.b > 3 then x += 1; y = 'z' else ...`,
`for each [1, 2] ...`). The pipeline has three stages:

- **Tokenizer.** An ordered table of matchers is tried at every position of
  the input. The first matcher that answers wins. The cursor moves by the
  length it matched. White space is dropped.
- **Parser.** A recursive-descent parser reads the tokens through a shared
  cursor, the token stream, and builds a syntax tree.
- **Engine.** The engine walks the top-level statements and updates a
  context dictionary in place.

The parts follow the program's files:

| file | module | what it holds |
|---|---|---|
| `wrappers.dfy` | `Wrappers` | `Option` and `Result` |
| `tokens.dfy` | `Tokens` | token kinds, token values, tokens, matcher answers |
| `string_tokenizer.dfy` | `StringTokenizer` | the quoted-string matcher: a function that says what it answers, and the loop proved equal to it |
| `tokenizer.dfy` | `Tokenizer` | the matcher table, the driver as a function, and the class `Lexer` whose loop is proved equal to it |
| `token_stream.dfy` | `TokenStreams` | the class `TokenStream`: an immutable token sequence and a `position` field |
| `ast.dfy` | `Ast` | the syntax tree as one closed datatype |
| `parser_spec.dfy` | `ParserSpec` | each parser routine as a function from tokens and a start position to a result and the position after it |
| `parser.dfy` | `Parser` | the parser's routines as methods over a `TokenStream`, each proved to return what its function says and to leave the cursor where it says |
| `parser_properties.dfy` | `ParserProperties` | what the parser does with conditions, expressions, references, statements, arrays and programs |
| `engine.dfy` | `Runtime` | values, the result of one assignment and of a run, and the class `Engine` whose methods update a `Context` in place |
| `pipeline.dfy` | `Pipeline` | the program `$cost = 2` parsed and run |

The condition parser matches src/parser/index.ts:80-160 as written. Its
functions take a `Rule`. `AsWritten` is the code's own step: an `and (`
clears the group flag before the steal is decided, and a plain operand
leaves the flag as it was. `Corrected` is the step with the two corrections
listed under "Findings". The rest of the parser (`AfterTerm`,
`ParseIfStatement`) and the imperative parser in `parser.dfy` use
`AsWritten`.

The main theorem about conditions is `ParserProperties.InnerFollowsPrecedence`.
It covers conditions built from `true`, `false`, `and`, `or` and
parentheses, at any nesting. For each such condition, the tree that
`parseBooleanExpressions` builds evaluates as the usual reading does, with
`and` binding tighter than `or`. Under `Corrected` it holds for every such
condition. Under `AsWritten` it holds when no condition, the whole one or a
parenthesised one, starts with a parenthesised group (`LeafFirst`).
`ParserProperties.ConditionFollowsPrecedence` states this as-written case at
the top of an `if`.

## Model

| member | source | states |
|---|---|---|
| Tokens.At | src/tokenstream.ts:10-18 | reading a token sequence at an index gives the token there, or `None` exactly when the index is out of range |
| StringTokenizer.ClosingQuote | src/tokenizers/string.ts:20-28 | finds the first later occurrence of the quote. None of the characters before it is the quote. `None` means the quote does not occur again |
| StringTokenizer.NextStringToken | src/tokenizers/string.ts:10-32 | no match unless a quote is at `current`. An error is always "unterminated string". A match is a String token at `current`, not skipped. Its text is the input strictly between the quote and the next alike quote, and contains no such quote. It consumes the text's length plus 2 |
| StringTokenizer.NextToken | src/tokenizers/string.ts:10-32 | the character-by-character loop returns exactly what `NextStringToken` says |
| StringTokenizer.ClosingQuoteAfter | src/tokenizers/string.ts:20-28 | after a run without the quote, the closing quote is the one right after the run |
| StringTokenizer.RoundTrip | src/tokenizers/string.ts:15-29 | `p + q + s + q + r` read at `|p|` gives back exactly `s`, with `|s| + 2` consumed, whenever `s` does not contain `q` |
| StringTokenizer.Unterminated | src/tokenizers/string.ts:21-23 | an opening quote gives "unterminated string" if and only if no later character is the same quote |
| StringTokenizer.NoEscapes | src/tokenizers/string.ts:15-25 | the other kind of quote may appear inside, and a backslash is copied verbatim |
| Tokenizer.FirstMatch | src/tokenizer.ts:70-79 | returns the first matcher in table order that does not answer "no match". Every matcher before it answers "no match". `None` means none answers |
| Tokenizer.EmptyInput | src/tokenizer.ts:66-85 | empty input gives no tokens |
| Tokenizer.TokenizeFrom | src/tokenizer.ts:65-86 | the driver keeps the tokens already emitted and adds at most one token per character left |
| Tokenizer.TableLayout | src/tokenizer.ts:16-62 | the table has 45 matchers. The string matcher is the tenth, and the identifier matcher is last, after every word |
| Tokenizer.NegationOrder | src/tokenizer.ts:28-29 | `!=` is tried before `!` |
| Tokenizer.GreaterOrder | src/tokenizer.ts:33-34 | `>` is tried before `>=` |
| Tokenizer.Step | src/tokenizer.ts:70-78 | the first answering matcher decides. The cursor moves by exactly what it consumed. Its token is appended unless the result is skipped |
| Tokenizer.NoMatcherAccepts | src/tokenizer.ts:80-82 | a position no matcher accepts fails with an error naming the character there, and no tokens are returned |
| Tokenizer.OnlyAppends | src/tokenizer.ts:73-75 | tokens already emitted stay, in order, at the front of the result |
| Tokenizer.Shadowed | src/tokenizer.ts:70-78 | a matcher equal to an earlier entry of the table is never the one selected |
| Tokenizer.DuplicateWordsNeverSelected | src/tokenizer.ts:53-60 | the second `true` and `false` word matchers in the table can never win |
| Tokenizer.Lexer.constructor | src/tokenizer.ts:15-62 | the lexer holds the table in the constructor's order |
| Tokenizer.Lexer.Tokenize | src/tokenizer.ts:65-86 | the nested loops return exactly what the driver function gives from position 0, an error included |
| TokenStreams.TokenStream.constructor | src/tokenstream.ts:4-8 | a new stream holds the tokens and starts at position 0. The tokens are a constant |
| TokenStreams.TokenStream.Peek | src/tokenstream.ts:10-12 | gives the token `count` places ahead, `None` past the end. As a function it cannot move the cursor |
| TokenStreams.TokenStream.Consume | src/tokenstream.ts:14-18 | returns the token at the old position (`None` past the end) and advances the position by exactly `count` |
| TokenStreams.TokenStream.HasNext | src/tokenstream.ts:20-22 | holds if and only if a token stands `count` places ahead |
| TokenStreams.TokenStream.GetPosition | src/parser/index.ts:311 | gives the cursor position |
| TokenStreams.TokenStream.SetPosition | src/parser/index.ts:383 | moves the cursor to the given position |
| ParserSpec.ParseReference | src/parser/index.ts:433-464 | on success, consumes at least the name token and stays in the input |
| ParserSpec.ReferenceSteps | src/parser/index.ts:441-461 | on success, ends within the input, at or after its start |
| ParserSpec.IndexEnd | src/parser/index.ts:452-455 | on success, consumes at least the `]` |
| ParserSpec.ParseBooleanExpression | src/parser/index.ts:162-255 | on success, consumes at least one token |
| ParserSpec.AfterOperand | src/parser/index.ts:189-227 | on success, ends within the input, at or after its start |
| ParserSpec.ParseComparand | src/parser/index.ts:229-252 | on success, consumes at least one token |
| ParserSpec.Combine | src/parser/index.ts:119-134 | the new condition is a group. Read left to right, it is the old condition, the combinator, then the new operand. The old condition is kept whole as the left side exactly when the flag is set, the combinator is not `and`, or the old condition is not a group. Otherwise `and` takes the right side of the old group |
| ParserSpec.ParseBooleanExpressions | src/parser/index.ts:80-160 | on success, ends within the input. It consumes at least one token unless it starts at `then` or at the end. It holds under either rule |
| ParserSpec.BooleanLoop | src/parser/index.ts:84-158 | the same progress, for the loop from any state |
| ParserSpec.BooleanTerm | src/parser/index.ts:153-156 | on success, consumes at least one token |
| ParserSpec.Combinator | src/parser/index.ts:87-137 | on success, consumes at least the combinator |
| ParserSpec.CombinatorStep | src/parser/index.ts:87-136 | on success, consumes the combinator and at least one token after it, and the condition so far becomes a group. As written, after `and (` the steal takes place whenever the previous node is a group, because the flag was cleared first, and a plain operand leaves the flag as it was. Corrected, the flag is clear after every step |
| ParserSpec.ParseExpression | src/parser/index.ts:305-401 | on success, consumes at least one token |
| ParserSpec.ExpressionLoop | src/parser/index.ts:309-400 | on success, ends within the input. It consumes a token when no term has been read yet |
| ParserSpec.AfterTerm | src/parser/index.ts:340-393 | on success, ends after the start of the term just read |
| ParserSpec.ParseTerm | src/parser/index.ts:310-339 | on success, consumes at least one token, and the first token starts a term |
| ParserSpec.ParseString | src/parser/index.ts:403-431 | on success, consumes at least the string token |
| ParserSpec.ConcatenationLoop | src/parser/index.ts:408-430 | on success, ends within the input, at or after its start |
| ParserSpec.ParseFunctionCall | src/parser/index.ts:466-485 | on success, consumes at least one token and gives a function call named after the first token |
| ParserSpec.ArgumentLoop | src/parser/index.ts:471-483 | on success, gives a call of the given name whose arguments extend those already read |
| ParserSpec.ParseObject | src/parser/index.ts:511-542 | on success, consumes at least the `{` |
| ParserSpec.PropertyLoop | src/parser/index.ts:515-540 | on success, ends within the input, at or after its start |
| ParserSpec.ParseProperty | src/parser/index.ts:516-531 | on success, consumes at least the name, the `:` and one token of the value |
| ParserSpec.PropertyEnd | src/parser/index.ts:532-539 | on success, consumes at least the token after the value |
| ParserSpec.ParseOperation | src/parser/index.ts:276-303 | on success, consumes at least one token |
| ParserSpec.Assignment | src/parser/index.ts:283-302 | on success, consumes at least the operator |
| ParserSpec.ParseOperations | src/parser/index.ts:261-274 | on success, ends within the input, at or after its start |
| ParserSpec.OperationLoop | src/parser/index.ts:263-272 | on success, ends within the input, at or after its start |
| ParserSpec.OperationEnd | src/parser/index.ts:266-271 | on success, ends within the input, at or after its start |
| ParserSpec.ParseIfStatement | src/parser/index.ts:59-78 | on success, consumes at least the `if` |
| ParserSpec.IfBody | src/parser/index.ts:63-67 | on success, consumes at least the `then` |
| ParserSpec.IfElse | src/parser/index.ts:69-77 | on success, ends within the input, at or after its start |
| ParserSpec.ParseForLoop | src/parser/index.ts:487-509 | on success, consumes at least the `for` |
| ParserSpec.ForEach | src/parser/index.ts:491-498 | on success, consumes at least the `each` |
| ParserSpec.ForCount | src/parser/index.ts:499-505 | on success, consumes at least the `(` |
| ParserSpec.ForBody | src/parser/index.ts:494-505 | on success, ends within the input, at or after its start |
| ParserSpec.ParseArray | src/parser/index.ts:548-578 | on success, consumes at least the `[` |
| ParserSpec.ArrayLoop | src/parser/index.ts:558-576 | on success, ends within the input, at or after its start |
| ParserSpec.ParseProgram | src/parser/index.ts:35-55 | no tokens give the empty program. The loop stops for good only at a token that starts no statement |
| ParserSpec.ProgramLoop | src/parser/index.ts:38-53 | the statements already parsed stay at the front of the program. When the loop stops for good, it is at or after its start, at a token that starts no statement |
| Parser.Parse | src/parser/index.ts:35-55 | returns the statements, or the error, that the top-level loop gives, on every input where that loop ends |
| Parser.ParseIfStatement | src/parser/index.ts:59-78 | returns what `ParserSpec.ParseIfStatement` gives and leaves the cursor where it says |
| Parser.ParseIfBody | src/parser/index.ts:63-67 | the same, against `ParserSpec.IfBody` |
| Parser.ParseIfElse | src/parser/index.ts:69-77 | the same, against `ParserSpec.IfElse` |
| Parser.ParseBooleanExpressions | src/parser/index.ts:80-160 | the same, against `ParserSpec.ParseBooleanExpressions` with the rule `AsWritten` |
| Parser.ParseCombinator | src/parser/index.ts:87-136 | the same, against `ParserSpec.CombinatorStep` with the rule `AsWritten` |
| Parser.ParseBooleanExpression | src/parser/index.ts:162-188 | the same, against `ParserSpec.ParseBooleanExpression` |
| Parser.ParseAfterOperand | src/parser/index.ts:189-227 | the same, against `ParserSpec.AfterOperand` |
| Parser.ParseComparand | src/parser/index.ts:229-254 | the same, against `ParserSpec.ParseComparand` |
| Parser.ParseOperations | src/parser/index.ts:261-274 | the same, against `ParserSpec.ParseOperations` |
| Parser.ParseOperation | src/parser/index.ts:276-282 | the same, against `ParserSpec.ParseOperation` |
| Parser.ParseAssignment | src/parser/index.ts:283-302 | the same, against `ParserSpec.Assignment` |
| Parser.ParseExpression | src/parser/index.ts:305-401 | the same, against `ParserSpec.ParseExpression`, the rewind included |
| Parser.ParseTerm | src/parser/index.ts:310-339 | the same, against `ParserSpec.ParseTerm` |
| Parser.ParseString | src/parser/index.ts:403-431 | the same, against `ParserSpec.ParseString` |
| Parser.ParseReference | src/parser/index.ts:433-464 | the same, against `ParserSpec.ParseReference` |
| Parser.ParseFunctionCall | src/parser/index.ts:466-485 | the same, against `ParserSpec.ParseFunctionCall` |
| Parser.ParseForLoop | src/parser/index.ts:487-509 | the same, against `ParserSpec.ParseForLoop` |
| Parser.ForInvalidHeader | src/parser/index.ts:506-507 | a `for` followed by neither `each` nor `(` is the error "for loop invalid" at that token |
| Parser.ParseForEach | src/parser/index.ts:491-498 | the same, against `ParserSpec.ForEach` |
| Parser.ParseForCount | src/parser/index.ts:499-505 | the same, against `ParserSpec.ForCount` |
| Parser.ParseForBody | src/parser/index.ts:494-505 | the same, against `ParserSpec.ForBody` |
| Parser.ParseObject | src/parser/index.ts:511-542 | the same, against `ParserSpec.ParseObject` |
| Parser.ParseProperty | src/parser/index.ts:516-531 | the same, against `ParserSpec.ParseProperty` |
| Parser.ParseArray | src/parser/index.ts:548-578 | the same, against `ParserSpec.ParseArray` |
| ParserProperties.HoldsTruth | src/parser/index.ts:119-135 | a loop state that matches the reading so far evaluates to it |
| ParserProperties.CombineHolds | src/parser/index.ts:119-135 | combining with the next operand keeps the loop state matching the reading. `or` closes the open conjunction; `and` extends it, taking the right side of a group that is not parenthesised |
| ParserProperties.LoopCloses | src/parser/index.ts:144-152 | at a token that closes the condition, the loop returns what it has |
| ParserProperties.LinksFollowPrecedence | src/parser/index.ts:84-158 | from any state that matches the reading, the loop run over a sequence of links ends after them, with a tree whose truth is the and-over-or reading. Corrected: always. As written: when the flag is clear and no condition inside starts with a group |
| ParserProperties.GroupLinkFollowsPrecedence | src/parser/index.ts:111-136 | a link whose operand is parenthesised reads the group whole, then combines it with the condition so far, under the same two conditions |
| ParserProperties.LinkFollowsPrecedence | src/parser/index.ts:119-158 | the loop after the first link keeps following the reading, under the same two conditions |
| ParserProperties.InnerFollowsPrecedence | src/parser/index.ts:80-160 | a condition of literals, `and`, `or` and parentheses parses entirely, up to where it is closed, into a tree whose truth is the usual reading with `and` binding tighter than `or`. Corrected: every such condition. As written: every such condition in which no condition starts with a group |
| ParserProperties.GroupFirstFollowsPrecedence | src/parser/index.ts:138-143 | corrected: a parenthesised first operand is read whole and becomes one operand of the loop |
| ParserProperties.ConditionFollowsPrecedence | src/parser/index.ts:59-62 | as written, the condition of an `if` in which no condition starts with a group parses up to the `then`, not consuming it, into a tree whose truth is the usual reading |
| ParserProperties.CombinatorFirst | src/parser/index.ts:103 | a combinator with nothing before it is an error at the combinator, under either rule |
| ParserProperties.NotIsBinary | src/parser/index.ts:99-100 | `a not b` is exactly the group of `a`, `Not` and `b`, and `not` is not a prefix, under either rule. Its truth under the model's reading is `a and not b` |
| ParserProperties.CloseParenthesis | src/parser/index.ts:144-148 | a `)` is consumed and ends the loop when a parenthesis is open, and is an error at the `)` if and only if none is, under either rule |
| ParserProperties.SurplusCloseAfterGroup | src/parser/index.ts:138-148 | as written, `( true ) )` is accepted at the top level, because the count a group adds is never given back |
| ParserProperties.GroupKeptWhole | src/parser/index.ts:124-142 | a parenthesised group followed by `and` is the untouched left operand of the new group. Corrected: any group. As written: a group in which no condition starts with a group |
| ParserProperties.LiteralIsLeaf | src/parser/index.ts:176-181 | `true` and `false` are leaves by themselves, one token each |
| ParserProperties.AfterLiteralOperand | src/parser/index.ts:189-227 | after a string or number operand, a combinator, `)` or the end leaves it alone. A comparator gives a comparison with it on the left. Any other token is an error at that token |
| ParserProperties.ComparandShape | src/parser/index.ts:229-252 | the right side of a comparison is a literal or a reference, and anything else is an error at it |
| ParserProperties.ChainReturnsLast | src/parser/index.ts:364-388 | a chain of numbers joined by arithmetic operators gives the last Aggregate made, joining the last two numbers; a single number gives itself |
| ParserProperties.BinaryAggregate | src/parser/index.ts:343-388 | `a op b` is Aggregate(a, op, b) |
| ParserProperties.ConditionRewinds | src/parser/index.ts:311-384 | after any term, a comparator or combinator makes the whole expression the condition read from that term's start |
| ParserProperties.RewindDropsChain | src/parser/index.ts:311-384 | `1 + 2 == 3` gives the condition `2 == 3`: the reread starts at the last term, not at the expression's start |
| ParserProperties.ReferenceShape | src/parser/index.ts:433-464 | a reference is an Identifier when no `.` or `[` follows its name. Otherwise it is a PropertyAccess on that name with at least one step |
| ParserProperties.DottedSteps | src/parser/index.ts:441-461 | the steps loop appends the names of a dotted path in source order and stops at the first token that is neither `.` nor `[` |
| ParserProperties.StepsStop | src/parser/index.ts:456-458 | a token other than `.` and `[` ends the steps |
| ParserProperties.DotStep | src/parser/index.ts:443-448 | `.name` appends the Identifier `name` |
| ParserProperties.DottedPath | src/parser/index.ts:433-464 | `a.b.c` is PropertyAccess(a, [b, c]) |
| ParserProperties.DotNeedsIdentifier | src/parser/index.ts:443-446 | a `.` not followed by an identifier is an error at that token |
| ParserProperties.IndexStep | src/parser/index.ts:449-455 | `a[n]` is PropertyAccess(a, [IndexAccess(n)]) |
| ParserProperties.IndexNeedsClose | src/parser/index.ts:452-453 | an index expression not followed by `]` is an error at that token |
| ParserProperties.ArgumentsInOrder | src/parser/index.ts:471-483 | arguments that are any expressions, each followed by an optional comma, then `)`: the call holds them after those already read, in source order, and the `)` is consumed. A trailing comma is accepted |
| ParserProperties.ArgumentStep | src/parser/index.ts:477-482 | one expression argument, and the comma after it if there is one |
| ParserProperties.CallStatement | src/parser/index.ts:277-485 | `f(a, b,)` as a statement, with any expressions as arguments, is a call of `f` with the arguments in order |
| ParserProperties.AssignmentNeedsOperator | src/parser/index.ts:289-299 | a reference statement not continued by `=`, `+=` or `-=` is an error at that token |
| ParserProperties.SimpleAssignment | src/parser/index.ts:281-302 | `x = n`, `x += n` and `x -= n` are Operations on the Identifier `x` with that operator and value |
| ParserProperties.StringLastReadsPastEnd | src/parser/index.ts:404-407 | a string literal as the last token reads past the end |
| ParserProperties.ConcatenationInOrder | src/parser/index.ts:409-429 | the concatenation loop adds its operands after those already read, in source order: literals as string literals, identifiers as the references they start |
| ParserProperties.StringConcatenationInOrder | src/parser/index.ts:403-431 | `s + t + u` is StringConcatenation of `s`, `t`, `u` in that order, the first string first. A string not followed by `+` is the string literal alone |
| ParserProperties.PropertyShape | src/parser/index.ts:516-530 | an entry that does not start with a string is an error at that token. A string not followed by `:` is an error at the token after it. A parsed entry is the string's name with the expression after the `:` |
| ParserProperties.EntriesInOrder | src/parser/index.ts:514-540 | the object loop adds its entries after those already read, in source order. The token after each value is consumed and dropped, whatever it is, and the `}` is consumed |
| ParserProperties.ObjectInOrder | src/parser/index.ts:511-542 | `{ "k1": v1, ..., "kn": vn }` is ObjectNode with exactly those entries in order, with any separator tokens between them |
| ParserProperties.OperationsInOrder | src/parser/index.ts:261-274 | `;`-separated operations are read in source order after those already read. The list stops at the first token after an operation that is not `;`, or at the end |
| ParserProperties.OperationsNext | src/parser/index.ts:263-270 | an operation followed by `;`: the loop goes on after the `;` with the operation added |
| ParserProperties.OperationsLast | src/parser/index.ts:263-269 | an operation not followed by `;` is the last one, and the list ends right after it |
| ParserProperties.OperationsContinue | src/parser/index.ts:266-270 | a `;` after an operation is consumed and the loop goes on |
| ParserProperties.OperationStep | src/parser/index.ts:263-264 | one operation is read and added at the end |
| ParserProperties.OperationsStop | src/parser/index.ts:265-268 | a token that is not `;` after an operation, or the end of input, ends the list with the operations read so far |
| ParserProperties.ArrayKeepsValues | src/parser/index.ts:558-576 | the loop passes only values and commas. It keeps exactly the String and Number values among them, in order; commas add nothing. It stops after the `]` that ends them, or at the end of input |
| ParserProperties.ListingParses | src/parser/index.ts:558-576 | values separated by commas, then `]`, are read back as those values |
| ParserProperties.ArrayRoundTrip | src/parser/index.ts:548-578 | `[ v1 , ... , vn ]` parses to exactly `v1 ... vn`, and `[]` to no values |
| ParserProperties.ArrayMissingComma | src/parser/index.ts:561-563 | two values with no comma between them are an error at the second |
| ParserProperties.ArrayRejects | src/parser/index.ts:573-574 | a token that is not a value, a comma or `]` is an error at that token |
| ParserProperties.LineBreakDiverges | src/parser/index.ts:38-52 | at a token that starts no statement, a line break among them, the top-level loop does not move: the parse does not end |
| ParserProperties.IfIsBranch | src/parser/index.ts:41-78 | an `if` statement parses into a Branch |
| ParserProperties.IfNeedsThen | src/parser/index.ts:63-66 | a condition not followed by `then` is an error at that token |
| ParserProperties.IfParts | src/parser/index.ts:59-78 | a parsed `if` is Branch of the condition read after `if`, then the operations after `then`. It has an else body exactly when `else` follows them, and that body is the operations after `else` |
| ParserProperties.ForParts | src/parser/index.ts:487-505 | a parsed `for` is a ForLoop. After `each` and an identifier it is the loop over that reference; after `each` and `[` the loop over that array; after `(` the counted loop over the expression up to its `)` |
| ParserProperties.ForBodyParts | src/parser/index.ts:494-504 | a loop's body succeeds exactly when the operations after its header do, and the loop is ForLoop of its kind, its parameter and those operations |
| ParserProperties.OperationIsStatement | src/parser/index.ts:44-303 | an identifier statement parses into an Operation or a FunctionCall |
| ParserProperties.ForIsLoop | src/parser/index.ts:47-509 | a `for` statement parses into a ForLoop |
| ParserProperties.ProgramStatements | src/parser/index.ts:35-55 | a parsed program lists its statements in source order, each a Branch, an Operation, a FunctionCall or a ForLoop |
| ParserProperties.GroupThenPlainOpens | src/parser/index.ts:138-142 | as written, the leading `( true )` of `( true ) or true and false` is read whole and sets the flag |
| ParserProperties.GroupThenPlainSteps | src/parser/index.ts:116-134 | as written, `or true and false` after the group keeps the flag set, so the `and` combines with the whole `or` group |
| ParserProperties.FlagKeptAfterPlainTerm | src/parser/index.ts:114-124 | as written, `( true ) or true and false` parses to exactly `(true or true) and false`, which evaluates to false |
| ParserProperties.GroupThenPlainByPrecedence | src/parser/index.ts:80-160 | with the corrected step, `( true ) or true and false` parses whole and evaluates to true |
| ParserProperties.GroupThenGroupFirst | src/parser/index.ts:80-160 | as written, the inside of the first group of `( true or false ) and ( false )` is `true or false`, read up to its `)` |
| ParserProperties.GroupThenGroupOpens | src/parser/index.ts:138-142 | as written, the first group of `( true or false ) and ( false )` is read whole and sets the flag |
| ParserProperties.GroupThenGroupSteps | src/parser/index.ts:111-134 | as written, `and ( false )` clears the flag before the steal, so `false` is taken out of the first group |
| ParserProperties.FlagClearedBeforeGroup | src/parser/index.ts:111-131 | as written, `( true or false ) and ( false )` parses to exactly `true or (false and false)`, which evaluates to true |
| ParserProperties.GroupThenGroupByPrecedence | src/parser/index.ts:80-160 | with the corrected step, `( true or false ) and ( false )` parses whole and evaluates to false |
| Runtime.TokenValueOf | src/engine/index.ts:77-80 | a literal's token stores a number or a string |
| Runtime.EvaluateExpression | src/engine/index.ts:75-86 | a value other than `undefined` comes exactly from the numeric, string and boolean literals. Each gives its stored value |
| Runtime.Combine | src/engine/index.ts:40-67 | `=` gives the right side. `+=` adds numbers or joins strings. `-=` subtracts numbers. It fails exactly on the other kinds of operand |
| Runtime.Assign | src/engine/index.ts:33-69 | a target that is neither a name nor one `.field` is the fault `UnsupportedTarget`. A field write on a name not bound to an object is the fault `NotAnObject`. A type mismatch never comes from `=`. A completed assignment binds exactly the names bound before plus its target's name |
| Runtime.Statement | src/engine/index.ts:20-30 | a statement never unbinds a name. Only an operation can fault |
| Runtime.Run | src/engine/index.ts:19-31 | running statements never unbinds a name. A run faults only if one of its statements is an operation |
| Runtime.Engine.constructor | src/engine/index.ts:15-17 | the engine holds the program |
| Runtime.Context.constructor | src/engine/index.ts:19 | a context holds the dictionary it is given |
| Runtime.Engine.Execute | src/engine/index.ts:19-31 | leaves the context, and answers, exactly as the statements run in order do |
| Runtime.Engine.ExecuteOperation | src/engine/index.ts:33-69 | leaves the context that one assignment gives. On a fault it leaves the context unchanged and reports the fault |
| Runtime.Engine.EvaluateBranch | src/engine/index.ts:71-73 | leaves the context unchanged |
| Runtime.AssignReplaces | src/engine/index.ts:55-68 | `x = e` binds `x` to the value of `e`, whatever it held before |
| Runtime.AddAndSubtract | src/engine/index.ts:55-68 | `x += e` rebinds `x` to the old value plus the value of `e`, and `x -= e` to the old value minus it |
| Runtime.OnlyTargetChanges | src/engine/index.ts:36-68 | an operation binds its target's name. Every other name keeps its binding, and no other name is added |
| Runtime.FieldWriteInPlace | src/engine/index.ts:36-53 | a field write keeps the name bound to an object. It rewrites that one field with the combined value and keeps every other field |
| Runtime.OthersLeaveContext | src/engine/index.ts:20-30 | a statement that is not an operation, a branch among them, leaves the context unchanged |
| Runtime.NonLiteralStoresAbsent | src/engine/index.ts:34-86 | an assignment whose right side is not a literal stores `undefined` with `=`, and faults with `+=` |
| Runtime.RunInOrder | src/engine/index.ts:19-31 | running `a + b` is running `a`, then, if it did not fault, running `b` from where `a` left the context |
| Pipeline.CostExample | src/tests/parser.spec.ts:12-22 | `$cost = 2` parses to one assignment of 2 to `$cost`, and running it against `{$cost: 0}` leaves `{$cost: 2}` |

## Findings

| source | as written | input that shows it | evidently intended | confidence | as-written member | corrected member |
|---|---|---|---|---|---|---|
| src/parser/index.ts:111-124 | a `(` after a combinator clears `prevInGroup` before the steal is decided, so `and (` takes the right side out of a parenthesised group just read | `( true or false ) and ( false )` evaluates to true | the group `( true or false )` stays whole, giving `(true or false) and false`, which is false | not executed | ParserProperties.FlagClearedBeforeGroup | ParserProperties.GroupThenGroupByPrecedence |
| src/parser/index.ts:116-124 | after a plain operand read by a combinator, `prevInGroup` keeps the value set by an earlier group, so a later `and` steals nothing | `( true ) or true and false` evaluates to false | `true or (true and false)`, which is true | not executed | ParserProperties.FlagKeptAfterPlainTerm | ParserProperties.GroupThenPlainByPrecedence |

`ParserSpec.CombinatorStep` with the rule `AsWritten` is the combinator step
as written. The two as-written members parse each input in full through it,
from the first token to the end. With the rule `Corrected`, the step
combines the parenthesised operand with the flag as it stood, then clears
the flag after every combination. The parser in `parser.dfy` is proved
against the step as written. `ParserProperties.InnerFollowsPrecedence` proves
the precedence reading for every condition of literals, `and`, `or` and
parentheses under the corrected step, and the two corrected members are
instances of it.

## Left out

- The matchers whose code is not part of this model (pattern, brace, number, symbol, word and identifier) are answered by an `Environment` function. Their only contract is that a match consumes at least one character. Which of them shadows which (`<` before `<=`, white space before a line break) is not stated.
- ParserProperties.InnerFollowsPrecedence: covers conditions of `true`, `false`, `and`, `or` and parentheses only. Comparisons, references and `not` as operands are not covered by it; `NotIsBinary` and `AfterLiteralOperand` cover their shapes.
- ParserProperties.InnerFollowsPrecedence: the general theorem covers only the corrected step. As written it is proved only for `LeafFirst` conditions, where no condition starts with a parenthesised group. The two findings show it fails as written for other conditions.
- ParserProperties.LinksFollowPrecedence: the general case covers only the corrected step. As written it needs a clear flag and links with `LeafFirst` operands.
- ParserProperties.GroupLinkFollowsPrecedence: the general case covers only the corrected step. As written it covers only `LeafFirst` links with a clear flag.
- ParserProperties.LinkFollowsPrecedence: the general case covers only the corrected step. As written it covers only `LeafFirst` links with a clear flag.
- ParserProperties.GroupFirstFollowsPrecedence: covers only the corrected step. A condition that starts with a group is not `LeafFirst`, and as written it can go wrong (`FlagKeptAfterPlainTerm`).
- ParserProperties.GroupKeptWhole: covers only the corrected step, or as written a group in which no condition starts with a group.
- Parser.Parse: requires that the top-level loop ends. On a statement start other than `if`, an identifier or `for`, a line break among them, the source loops forever (`ParserProperties.LineBreakDiverges`).
- The parser builds new tree values where the source rewires nodes in place (`prevGroup.right = ...`, `currentExpression.right = ...`). The tree returned is the same, but the earlier Aggregates of an arithmetic chain, which the source links to the returned one, are not part of any returned value (`ParserProperties.ChainReturnsLast`).
- A parser error carries a kind and a token position; the message text is not modelled. A read of `.type` on a missing token is the error `ReadPastEnd`.
- Some parser routines are split into several methods, such as `ParseIfBody`, `ParseCombinator` and `ParseForEach`. Each is one part of the routine named in its row. The split keeps each proof small.
- The open-parenthesis count that a group adds in the condition loop is never given back, as written (`ParserProperties.SurplusCloseAfterGroup`). It is kept that way: its effect is only that a surplus `)` can pass.
- The token kinds of the parser and tokenizer include `for`, `each` and `:`, and the tree has its own constructor for every node the parser builds. The token and node tag lists in `src/tokentype.ts` and `src/ast/nodetype.ts` lack some of these; every kind is modelled as distinct.
- A PropertyAccess is a name and a sequence of steps, as the parser builds it. The parser stores the whole steps array in the node's `property` field. As written, the engine's `property.name` is therefore `undefined`, and JavaScript writes the key "undefined". The model takes the intended reading: a target with exactly one `.field` step writes that field. Any other reference target is the fault `UnsupportedTarget`.
- ParserProperties.NotIsBinary: the source never evaluates conditions (branches do nothing in the engine). The truth `a and not b` comes from `Truth`, the model's own reading of a `Not` group, and no source line states it.
- Runtime.Combine: numbers are unbounded integers, and `+=` and `-=` need operands of the same kind (numbers, or strings for `+=`). JavaScript's floating point, `NaN` from `undefined + n` and mixed string and number `+` are the fault `TypeMismatch`.
- A field write on a name not bound to an object, which throws in the source, is the fault `NotAnObject`. A fault ends the run with the context as the earlier statements left it.
- Objects are values in the context: two bindings never share one, so aliasing between bindings is not modelled.
- Built-in functions, loop execution and branch evaluation are not implemented by the engine here: a function call evaluates to `undefined`, and a branch does nothing.
- The `Pipeline.CostExample` tokens are given directly. The tokenizer's matchers for identifiers, `=` and numbers are abstract, so the example does not derive them from the text.
- Logging in the test file is not modelled.
