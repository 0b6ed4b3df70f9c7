# Monkey interpreter core, modelled in Dafny

This project models the core of a C interpreter for the Monkey language:
- the lexer, which turns characters into tokens;
- the Pratt parser, which turns tokens into statements and expressions;
- the tree-walking evaluator, with its objects, environments and builtins;
- the supporting strings, tokens, hash tables and the growable program array.

Code that changes records in place keeps that shape:
- **Strings, tokens and programs.** Their buffers are modelled as classes over arrays: `Strings.StringBuffer`, `Tokens.TokenBuffer` and `Programs.Program`.
- **Hash tables.** `Hash.HashTable` holds 256 buckets.
- **Environments.** `Environments.Environment` is a chain of environments.
- **The lexer.** It is a `Lexer.CharStream` read by the `Lexer.NextAux` loop.
- **The parser.** `Parsing.Parser` holds the current token and the lookahead.
- **The evaluators.** They live in module `Interpreter` and write into an `Objects.ObjectCell` supplied by the caller.

Every such method is proved against a specification function on values:
- `Lexer.Aux` and `Lexer.NextToken`;
- the `ParserSpec` functions over a parser state `PState(tokens, pos, error)`;
- the `Evaluator` functions over a sequence of scopes, innermost first, with a fuel bound.

The lemmas state properties of those functions:
- the lexical rules;
- operator precedence and associativity;
- error reporting;
- scoping, including shadowing, dynamic scope and argument binding;
- evaluation order and C `int` arithmetic;
- round trips between printing and reading integers.

The C program's undefined behaviour is not modelled as such:
- **Signed overflow, division by zero, and negating the smallest `int`.** These become the evaluation error `UndefinedBehaviour` instead of a value.
- **Recursion depth.** Evaluation carries a `fuel` bound that stands for the depth of the C stack. Running out of it gives `OutOfFuel`.

`object_equal` is not part of this model, and is passed to the evaluator as a parameter `equal`.

## Model

| member | source | states |
|---|---|---|
| LibC.DigitChar | src/parser.c:235 | the character for a decimal digit is a digit |
| LibC.DigitValue | src/parser.c:235 | a digit character's value is below ten and maps back to the character |
| LibC.LeadingDigits | src/parser.c:235 | atoi reads the longest prefix made of digits: a prefix, all digits, followed by a non-digit or the end |
| LibC.Atoi | src/parser.c:235 | atoi as the parser calls it: leading white space skipped, an optional sign, then the value of the longest run of digits; `LeadingDigits` and `AtoiInvertsIntText` state its properties |
| LibC.NatText | src/expression.c:42-45 | `%d` of a natural number is a non-empty run of digits |
| LibC.IntText | src/expression.c:42-45 | `%d` of any integer: a minus sign for negative numbers, then `NatText` of the magnitude; `AtoiInvertsIntText` proves atoi reads it back |
| LibC.DigitsValueOfNatText | src/expression.c:42-45 | the digits `%d` prints have the printed number as their value |
| LibC.LeadingDigitsOfDigits | src/parser.c:235 | atoi stops exactly at the end of a run of digits |
| LibC.AtoiInvertsIntText | src/parser.c:235 | atoi of the `%d` text of any integer gives that integer back |
| Strings.CString | src/string.c:56-66 | what strcmp sees is the prefix before the first NUL, NUL-free, followed by NUL or the end |
| Strings.CStringOfTerminated | src/string.c:56-66 | a NUL-free text followed by NUL is exactly what strcmp sees |
| Strings.StringBuffer.Init | src/string.c:8-13 | a new string has no buffer, size 0, position 0 and the empty text |
| Strings.StringBuffer.Reset | src/string.c:22-28 | reset zeroes the whole buffer, keeps buffer and capacity, and leaves the empty text |
| Strings.StringBuffer.Append | src/string.c:30-42 | append adds the character to the end of the text; allocates two slots first, doubles when the next slot is the last, keeps the buffer otherwise |
| Strings.StringBuffer.Copy | src/string.c:44-54 | copy takes size and position, and a fresh copy of the buffer (none when the source has none), so the text is the source's |
| Strings.StringBuffer.CStringIsText | src/string.c:56-66 | the NUL-terminated buffer holds, as a C string, exactly the appended text |
| Strings.StringBuffer.Equal | src/string.c:56-66 | string_equal: two missing buffers are equal, a missing and an allocated one are not, and otherwise strcmp decides on the C strings; `EqualIsTextEquality` and `EmptyIsNotUnallocated` state what that means for the texts |
| Strings.EqualIsTextEquality | src/string.c:56-66 | two allocated buffers with NUL-free texts are string_equal exactly when their texts are equal |
| Strings.EmptyIsNotUnallocated | src/string.c:56-66 | an allocated empty string is never string_equal to an unallocated one, though their texts agree |
| Tokens.TokenText | src/token.c:35-122 | token_print as the text it writes: `NAME(lexeme)`, `OPERATOR[lexeme]` or a fixed name, then a newline; `TokenTextShape` states its shape |
| Tokens.TokenTextShape | src/token.c:35-122 | token_print shows the lexeme in parentheses for names, integers, strings and ILLEGAL, and `OPERATOR[...]` for operators; other kinds print a fixed line; line and column never print |
| Tokens.TokenBuffer.Init | src/token.c:6-12 | a new token is NONE at line 0, column 0, with an unallocated lexeme |
| Tokens.TokenBuffer.Reset | src/token.c:19-25 | reset gives the NONE token with an empty lexeme, keeping the lexeme's storage and capacity |
| Tokens.TokenBuffer.Extend | src/lexer.c:95 | extending appends the character to the lexeme and changes nothing else |
| Tokens.TokenBuffer.Copy | src/token.c:27-33 | copy duplicates the token into storage of the copy's own |
| Operations.Level | src/operation.c:5-26 | precedence levels are the numbers 0 to 6 of the C enumeration |
| Operations.OperationPrecedence | src/operation.c:5-26 | binary operators lie strictly between LOWEST and PREFIX; an operator has PREFIX exactly when it is unary; nothing has LOWEST or CALL |
| Operations.LevelsStrictlyOrdered | src/operation.c:5-26 | distinct precedences have distinct levels, ordered LOWEST < EQUALITY < RELATIONAL < SUM < PRODUCT < PREFIX < CALL |
| Operations.BindingOrder | src/operation.c:5-26 | products bind tighter than sums, sums tighter than comparisons, comparisons tighter than equality tests |
| Operations.OperationText | src/operation.c:28-68 | binary operators print with a space either side; unary ones as one character; only OPERATION_NONE prints nothing |
| Operations.OperationTextInjective | src/operation.c:28-68 | equal printed forms mean equal operators |
| Ast.ExpressionInit | src/expression.c:7-18 | expression_init gives a node of the requested type whose operand slots are empty |
| Ast.ExpressionText | src/expression.c:37-96 | expression_print as the text it writes: literals as their value, strings quoted, prefix and infix nodes in parentheses, other kinds nothing; `FullyParenthesised`, `SilentTypes` and `IntegerTextReadsBack` state its properties |
| Ast.StatementText | src/statement.c:34-45 | statement_print as the text it writes; `StatementTextShape` states its shape |
| Ast.CountAppend | src/expression.c:57-72 | parenthesis counts add up over concatenated text |
| Ast.NoParenthesesCounted | src/expression.c:47-55 | a text without the character counts it zero times |
| Ast.PlainTextsHaveNoParentheses | src/expression.c:74-96 | a tree without operators and with plain leaves prints no parentheses |
| Ast.FullyParenthesised | src/expression.c:57-72 | the printed form has exactly one `(` and one `)` per prefix and infix node |
| Ast.SilentTypes | src/expression.c:74-96 | conditionals, function literals, calls, arrays and the empty expression print nothing |
| Ast.IntegerTextReadsBack | src/expression.c:42-45 | the printed integer literal reads back through atoi as its value |
| Ast.StatementTextShape | src/statement.c:34-45 | a statement prints as `let NAME = `, `return ` or nothing, then its expression, then `;` and a newline |
| Lexer.CharStream.Getc | src/lexer.c:19 | fgetc yields the next character and advances, or EOF with the end-of-file indicator set at the end |
| Lexer.CharStream.Ungetc | src/lexer.c:71-91 | ungetc steps back one character and clears the end-of-file indicator |
| Lexer.OpenKind | src/lexer.c:144-168 | the kind an operator character with lookahead starts is one the scan loop can resume |
| Lexer.Aux | src/lexer.c:9-199 | a scan never moves back, succeeds exactly when the token is not ILLEGAL, never ends in NONE or COMMENT, and consumes input unless at end of file |
| Lexer.Keyword | src/lexer.c:212-232 | a lexeme stays an identifier exactly when no keyword is a prefix of it |
| Lexer.NextToken | src/lexer.c:202-232 | once end of file was seen lexer_next fails with a NONE token; a success is never NONE, COMMENT or ILLEGAL; line and column stay 0 |
| Lexer.Step | src/lexer.c:12-199 | one loop pass leaves the stream and token where the rest of the scan gives the same result |
| Lexer.AtEnd | src/lexer.c:19-39 | at end of file NONE and COMMENT give END, the lookahead kinds complete, and any other state is ILLEGAL, exactly as the scan says |
| Lexer.Consume | src/lexer.c:41-199 | after a read character the loop body finishes the token where the scan does, or continues in a state from which the scan gives the same result |
| Lexer.Extend | src/lexer.c:94-199 | appending the character and moving on gives the result the scan specifies |
| Lexer.Appended | src/lexer.c:96-199 | once the character is appended, the new state completes the token or continues as the scan does |
| Lexer.Begin | src/lexer.c:130-199 | in state NONE the character decides the kind of the new token and whether it is complete, as the scan does |
| Lexer.NextAux | src/lexer.c:9-199 | lexer_next_aux leaves the result, token and stream that `Aux` specifies |
| Lexer.Next | src/lexer.c:202-232 | lexer_next leaves the result, token and stream that `NextToken` specifies |
| LexerProperties.SkipsWhitespace | src/lexer.c:45-46 | white space before a token does not change the scan |
| LexerProperties.IdentifierContinues | src/lexer.c:70-72 | an identifier in progress runs over letters, digits and underscores up to the first other character |
| LexerProperties.ScansIdentifier | src/lexer.c:136-138 | an identifier starts with a letter, ends before the first other character, which is pushed back, and is then told apart from keywords by prefix |
| LexerProperties.IntegerContinues | src/lexer.c:73-75 | an integer in progress runs over digits |
| LexerProperties.ScansInteger | src/lexer.c:139-141 | an integer is a maximal run of digits; the next character is pushed back |
| LexerProperties.StringContinues | src/lexer.c:76-77 | a string in progress runs up to the next double quote |
| LexerProperties.ScansString | src/lexer.c:54-56 | a string's lexeme is the text between the quotes, quotes left out |
| LexerProperties.UnterminatedString | src/lexer.c:19-38 | a string without its closing quote is ILLEGAL at the end of the input |
| LexerProperties.ScansComparison | src/lexer.c:78-126 | `=`, `>`, `<`, `!` followed by `=` give the two-character operator, otherwise the one-character one with the character pushed back; at the end `!` alone is ILLEGAL |
| LexerProperties.TwoCharacterKinds | src/lexer.c:112-126 | `==`, `>=`, `<=` and `!=` are EQUAL, GREATER_EQUAL, LESS_EQUAL and NOT_EQUAL |
| LexerProperties.CommentContinues | src/lexer.c:67-69 | a comment in progress runs to the newline |
| LexerProperties.SkipsComment | src/lexer.c:115-117 | `//` starts a comment that yields no token: the scan continues after the newline, or gives END |
| LexerProperties.ScansDivide | src/lexer.c:81-83 | a `/` not followed by `/` is the division operator |
| LexerProperties.EndOfInput | src/lexer.c:19-23 | at the end of the input the lexer gives END and sets the end-of-file indicator, after which it fails at once |
| LexerProperties.ScansSingle | src/lexer.c:143-198 | each single-character token character gives its kind and is consumed; a character that starts no token is ILLEGAL |
| LexerProperties.SingleKindInjective | src/lexer.c:143-198 | distinct punctuation characters give distinct kinds |
| LexerProperties.KeywordByPrefix | src/lexer.c:218-232 | identifiers that merely start with a keyword, such as `letter` and `iffy`, become that keyword |
| ParserSpec.Start | src/parser.c:12-18 | the initial state is well-formed and can move once per token |
| ParserSpec.Advance | src/parser.c:26-32 | parser_next makes the lookahead current and moves forward, staying put at the end |
| ParserSpec.Fail | src/parser.c:34-38 | parser_error records the kind with the current token and moves nothing |
| ParserSpec.NextIf | src/parser.c:40-47 | next_if moves exactly when the lookahead has the kind, and otherwise changes nothing |
| ParserSpec.NextExpect | src/parser.c:49-57 | next_expect always moves; it succeeds exactly when the lookahead has the kind, and otherwise records the error with that token |
| ParserSpec.InfixOperation | src/parser.c:263-289 | the operator for a lookahead token is none or a binary operator |
| ParserSpec.ExpressionNext | src/parser.c:333-337 | advancing then parsing keeps the tokens, never moves back, and on success has moved forward |
| ParserSpec.ParseExpression | src/parser.c:323-331 | an expression parse keeps the tokens, never moves back, and on success does not end on END |
| ParserSpec.ParseLeft | src/parser.c:229-261 | a left-operand parse keeps the tokens, never moves back, and on success does not end on END |
| ParserSpec.ParsePrefix | src/parser.c:59-64 | a prefix parse keeps the tokens, never moves back, and on success does not end on END |
| ParserSpec.ParseGrouped | src/parser.c:66-75 | a grouped parse keeps the tokens, never moves back, and on success does not end on END |
| ParserSpec.ParseConditional | src/parser.c:98-123 | a conditional parse keeps the tokens, never moves back, and on success does not end on END |
| ParserSpec.ParseFunction | src/parser.c:155-169 | a function parse keeps the tokens, never moves back, and on success does not end on END |
| ParserSpec.ParseParameters | src/parser.c:125-153 | a parameter parse keeps the tokens, never moves back, and on success does not end on END |
| ParserSpec.ParametersLoop | src/parser.c:140-150 | the parameter loop keeps the names already read in front |
| ParserSpec.ParseBlock | src/parser.c:77-96 | a block parse succeeds only on a `}` |
| ParserSpec.BlockLoop | src/parser.c:84-93 | the block loop keeps the statements already read in front and succeeds only on a `}` |
| ParserSpec.ParseCallArguments | src/parser.c:171-203 | an argument parse keeps the tokens, never moves back, and on success does not end on END |
| ParserSpec.ArgumentsLoop | src/parser.c:192-200 | the argument loop keeps the arguments already read in front |
| ParserSpec.ParseRight | src/parser.c:291-321 | the infix loop never moves back, and on success either stays put or does not end on END |
| ParserSpec.ParseStatement | src/parser.c:381-393 | a statement parse never yields an untyped statement |
| ParserSpec.ParseLet | src/parser.c:339-357 | a let parse yields a let statement with a name |
| ParserSpec.ParseReturn | src/parser.c:359-368 | a return parse yields a return statement |
| ParserSpec.ParseExpressionStatement | src/parser.c:370-379 | an expression-statement parse yields an expression statement |
| ParserSpec.ProgramLoop | src/parser.c:395-412 | the program loop keeps the statements already parsed in front, and succeeds only at END |
| ParserSpec.ParseProgram | src/parser.c:395-412 | a program parse keeps the tokens and succeeds only at END |
| ParserProperties.ExpressionNextUnfolds | src/parser.c:333-337 | `ExpressionNext` is parser_next followed by the expression parse, the end of the stream included |
| ParserProperties.NextMovesLookahead | src/parser.c:26-32 | parser_next makes the lookahead current, returns false exactly on END and ILLEGAL, and stays at END |
| ParserProperties.LeftRejects | src/parser.c:214-261 | a token that starts no expression fails with TOKEN_UNEXPECTED and that token; macro, quote and unquote fail without an error |
| ParserProperties.Leaf | src/parser.c:233-240 | the leaf built for a token has the matching expression type |
| ParserProperties.LeftLeaf | src/parser.c:233-240 | a leaf token parses as its leaf without moving |
| ParserProperties.LoneLeaf | src/parser.c:291-331 | a leaf followed by neither `(` nor an operator binding tighter than the minimum is the whole expression |
| ParserProperties.RightStops | src/parser.c:301-309 | the infix loop stops, unchanged, when the lookahead is neither `(` nor an operator binding tighter than the minimum |
| ParserProperties.RightFolds | src/parser.c:306-319 | a tighter operator takes the expression so far as left operand and the next expression, at its own precedence, as right operand, then the loop goes on |
| ParserProperties.FoldLeaf | src/parser.c:306-319 | one turn of the loop over an operator and a leaf folds them into the expression so far |
| ParserProperties.LeafPair | src/parser.c:291-331 | leaf, tighter operator, leaf is one infix node |
| ParserProperties.CallWraps | src/parser.c:294-304 | a `(` lookahead wraps the expression in a call without arguments and stops on the `(` |
| ParserProperties.NextLeaf | src/parser.c:333-337 | parser_next then the expression parse of a lone leaf yields that leaf on it |
| ParserProperties.LeafStatement | src/parser.c:370-379 | a lone leaf without `;` is an expression statement ending on the leaf |
| ParserProperties.BlockStep | src/parser.c:84-93 | one pass of the block loop adds the statement and moves past it |
| ParserProperties.ProgramStep | src/parser.c:397-401 | one pass of the program loop adds the statement parsed after parser_next |
| ParserProperties.ProgramEnd | src/parser.c:397-411 | reaching END ends the program successfully with the statements so far |
| ParserProperties.ArgumentStep | src/parser.c:193-199 | `,` and an argument add that argument to the list |
| ParserProperties.FirstLeafArgument | src/parser.c:186-189 | a lone-leaf first argument starts the argument loop with that leaf |
| ParserProperties.LeafArgument | src/parser.c:193-199 | `,` and a lone leaf add that leaf to the arguments |
| ParserProperties.ArgumentsClose | src/parser.c:193-202 | `)` ends the argument loop with the arguments gathered |
| ParserProperties.ExpressionStatementOf | src/parser.c:370-393 | a statement not starting with let or return is an expression statement of its expression for any expression; a `;` after it only moves the parser on by one token |
| ParserProperties.LetLeaf | src/parser.c:339-357 | `let name = leaf` is a let statement of that name and leaf, ending on the `;` if there is one |
| ParserProperties.LeftGroups | src/parser.c:291-321 | with two operators where the second does not bind tighter, the first pair groups |
| ParserProperties.RightGroups | src/parser.c:291-321 | with two operators where the second binds tighter, the second pair groups |
| ParserProperties.TwoOperators | src/parser.c:291-321 | both cases together: the first pair groups unless the second operator binds tighter, so equal precedence associates left |
| ParserProperties.IntegerLeaf | src/parser.c:235 | an integer token's leaf holds its atoi value |
| ParserProperties.SubtractionLeaves | src/parser.c:291-321 | integer leaves `a - b - c` group as `(a - b) - c` |
| ParserProperties.SubtractionAssociatesLeft | src/parser.c:291-321 | any `a - b - c` over integers parses as `((a - b) - c)` of their atoi values |
| ParserProperties.ProductLeaves | src/parser.c:291-321 | integer leaves `a + b * c` group as `a + (b * c)` |
| ParserProperties.ProductBindsTighter | src/parser.c:291-321 | any `a + b * c` over integers parses as `(a + (b * c))` of their atoi values |
| ParserProperties.PrintedGrouping | src/expression.c:65-72 | those two shapes over 1, 2, 3 print as `((1 - 2) - 3)` and `(1 + (2 * 3))` |
| ParserProperties.LetWithoutName | src/parser.c:339-357 | a program `let` followed by anything but a name fails with LET_TOKEN_IDENTIFIER at that token and adds no statement |
| ParserProperties.LetThenEnd | src/parser.c:339-357 | a let of a leaf followed by END, with or without `;`, ends the program with that one statement |
| ParserProperties.LetProgramWithSemicolon | src/parser.c:395-412 | the program `let x = v;` is that one let statement |
| ParserProperties.LetProgramWithoutSemicolon | src/parser.c:395-412 | the program `let x = v` is that one let statement |
| ParserProperties.LetSemicolonOptional | src/parser.c:354 | a let with or without its `;` gives the same program |
| ParserProperties.IllegalStopsProgram | src/parser.c:407-410 | an ILLEGAL token ends the program with TOKEN_ILLEGAL, keeping the statements before it |
| ParserProperties.FailingStatementStopsProgram | src/parser.c:400-405 | the program stops at the first failing statement with its failure state |
| ParserProperties.GroupedLeaf | src/parser.c:66-75 | `(x)` is the leaf itself; without the `)` the error carries the last inner token |
| ParserProperties.CallLeavesArguments | src/parser.c:205-212 | `(` after an expression makes a call without arguments, so `f()` fails on `)` with TOKEN_UNEXPECTED |
| ParserProperties.NoParameters | src/parser.c:127-130 | `()` is an empty parameter list |
| ParserProperties.TwoParameters | src/parser.c:125-153 | `(a, b)` names a then b |
| ParserProperties.ParameterWithoutComma | src/parser.c:140-143 | a missing comma between parameters fails with FUNCTION_EXPECTED_COMMA at the token found |
| ParserProperties.ParameterWithoutName | src/parser.c:132-136 | a list not starting with a name or `)` fails with FUNCTION_EXPECTED_IDENTIFIER at the token found |
| ParserProperties.TwoArguments | src/parser.c:171-203 | `(x, y)` over leaves is those two arguments, in order |
| ParserProperties.ArgumentError | src/parser.c:192-194 | a missing comma between arguments fails with CALL_EXPECTED_COMMA at the token found |
| ParserProperties.LeafBlock | src/parser.c:77-96 | `{ x }` is a block of one expression statement |
| ParserProperties.IfElse | src/parser.c:98-123 | `if (c) { x } else { y }` is a conditional with one statement per branch |
| ParserProperties.IfWithoutParenthesis | src/parser.c:100-101 | `if` without `(` fails with EXPRESSION_IF_EXPECTED_LEFT_PAREN |
| ParserForms.PrefixOf | src/parser.c:241-244 | `-` and `!` give unary operations of PREFIX precedence |
| ParserForms.PrefixOperandTakesNoOperator | src/parser.c:59-64 | an operand parsed at PREFIX precedence is its left operand alone, or a call of it when `(` follows: no infix operator is folded in |
| ParserForms.PrefixLeaf | src/parser.c:59-64 | `-` or `!` before a leaf is the prefix node of that leaf, ending on the leaf |
| ParserForms.PrefixBindsTighter | src/parser.c:59-64 | `-a op b` parses as `((-a) op b)` for every infix operator |
| ParserForms.Grouped | src/parser.c:66-75 | for any inner expression: its failure is the group's; with `)` after it the value is the inner expression itself, ending on the `)`; otherwise EXPRESSION_GROUP_EXPECTED_PAREN |
| ParserForms.GroupOverridesPrecedence | src/parser.c:66-75 | `(a o1 b) o2 c` groups the first pair whatever the two precedences |
| ParserForms.ConditionalParts | src/parser.c:98-123 | for any condition and consequence: without `else` the conditional has no alternative and ends on the `}`; with `else` the alternative block follows and its failure is the conditional's |
| ParserForms.ConditionWithoutParenthesis | src/parser.c:106-107 | a condition not followed by `)` fails with EXPRESSION_IF_EXPECTED_RIGHT_PAREN at the token found |
| ParserForms.IfWithoutElse | src/parser.c:98-123 | `if (c) { x }` without `else` is a conditional with no alternative |
| ParserForms.FunctionParts | src/parser.c:155-169 | for any parameter list the body block follows, and its failure is the literal's |
| ParserForms.FunctionWithoutParenthesis | src/parser.c:157-158 | `fn` without `(` fails with EXPRESSION_FUNCTION_EXPECTED_LEFT_PAREN at the token found |
| ParserForms.ParameterStep | src/parser.c:140-151 | one loop pass: `, name` appends the name; `,` and anything else fails with FUNCTION_EXPECTED_IDENTIFIER |
| ParserForms.ParametersClose | src/parser.c:140 | `)` ends the loop with the names gathered |
| ParserForms.ParameterTail | src/parser.c:140-152 | the grammar `(, IDENT)* )` as a reference: on success the state is later and at the `)` |
| ParserForms.ParameterList | src/parser.c:140-152 | the loop accepts exactly the shapes of `ParameterTail`, appending every name in order and ending on the `)`, and fails on every other shape |
| ParserForms.NameThenList | src/parser.c:140-151 | a pass over `, name` followed by a well-shaped rest puts the name before the rest's names |
| ParserForms.NameThenFailure | src/parser.c:140-151 | a pass over `, name` followed by an ill-shaped rest fails |
| ParserForms.Parameters | src/parser.c:125-153 | `)` gives no names; a name followed by a well-shaped rest gives that name and the rest's, in order; anything else fails |
| ParserForms.LetSemicolon | src/parser.c:339-357 | for any value, a let statement binds the name to it, and a `;` after it only moves the parser on by one token |
| ParserForms.ReturnSemicolon | src/parser.c:359-368 | for any value, its failure is the return statement's; otherwise the statement returns it, and a `;` after it only moves the parser on by one token |
| Parsing.AdvanceMoves | src/parser.c:26-32 | parser_next moves forward whenever the new current token is not END |
| Parsing.Parser.Init | src/parser.c:12-18 | parser_init leaves the state `Start` |
| Parsing.Parser.Next | src/parser.c:26-32 | parser_next leaves the state `Advance` and returns `NextResult` |
| Parsing.Parser.Error | src/parser.c:34-38 | parser_error leaves the state `Fail` |
| Parsing.Parser.NextIf | src/parser.c:40-47 | next_if agrees with `ParserSpec.NextIf` |
| Parsing.Parser.NextExpect | src/parser.c:49-57 | next_expect agrees with `ParserSpec.NextExpect` |
| Parsing.Parser.ExpressionNext | src/parser.c:333-337 | agrees with `ParserSpec.ExpressionNext` on result, value and state |
| Parsing.Parser.ParseExpression | src/parser.c:323-331 | agrees with `ParserSpec.ParseExpression` |
| Parsing.Parser.ParseLeft | src/parser.c:229-261 | agrees with `ParserSpec.ParseLeft` |
| Parsing.Parser.ParsePrefix | src/parser.c:59-64 | agrees with `ParserSpec.ParsePrefix` |
| Parsing.Parser.ParseGrouped | src/parser.c:66-75 | agrees with `ParserSpec.ParseGrouped` |
| Parsing.Parser.ParseConditional | src/parser.c:98-123 | agrees with `ParserSpec.ParseConditional` |
| Parsing.Parser.ParseFunction | src/parser.c:155-169 | agrees with `ParserSpec.ParseFunction` |
| Parsing.Parser.ParseParameters | src/parser.c:125-153 | the loop agrees with `ParserSpec.ParseParameters` |
| Parsing.Parser.ParseBlock | src/parser.c:77-96 | the loop agrees with `ParserSpec.ParseBlock` |
| Parsing.Parser.ParseCallArguments | src/parser.c:171-203 | the loop agrees with `ParserSpec.ParseCallArguments` |
| Parsing.Parser.ParseRight | src/parser.c:291-321 | the loop agrees with `ParserSpec.ParseRight` |
| Parsing.Parser.ParseStatement | src/parser.c:381-393 | agrees with `ParserSpec.ParseStatement` |
| Parsing.Parser.ParseLet | src/parser.c:339-357 | agrees with `ParserSpec.ParseLet` |
| Parsing.Parser.ParseReturn | src/parser.c:359-368 | agrees with `ParserSpec.ParseReturn` |
| Parsing.Parser.ParseExpressionStatement | src/parser.c:370-379 | agrees with `ParserSpec.ParseExpressionStatement` |
| Parsing.Parser.ParseProgram | src/parser.c:395-412 | the loop leaves the state, result and statements of `ProgramLoop` |
| Objects.Copy | src/object.c:36-49 | a copy has the source's contents with the returned mark clear |
| Objects.CopyIdempotent | src/object.c:36-49 | copying twice is copying once, and the source's mark does not matter |
| Objects.ObjectText | src/object.c:51-70 | object_print as the text it writes: NULL, `bool: `, `integer: ` with `%d`, `string: ` or `function`, then a newline; other objects nothing; `PrintedLine`, `IntegerLineReadsBack` and `ScalarsPrintDistinctly` state its properties |
| Objects.PrintedLine | src/object.c:51-70 | printable objects print one newline-terminated line, the rest nothing |
| Objects.IntegerLineReadsBack | src/object.c:61 | the printed integer reads back through atoi |
| Objects.ScalarsPrintDistinctly | src/object.c:51-70 | null, booleans, integers and strings with equal printed lines are equal |
| Objects.ObjectCell.Local | src/eval.c:176 | a fresh local holds unspecified contents with the mark clear |
| Objects.ObjectCell.InitInteger | src/object.c:8-13 | sets the integer, keeps the mark, reports success |
| Objects.ObjectCell.InitString | src/object.c:15-20 | sets the string, keeps the mark, reports success |
| Objects.ObjectCell.InitBool | src/object.c:22-27 | sets the boolean, keeps the mark, reports success |
| Objects.ObjectCell.InitFunction | src/object.c:29-34 | sets the function literal, keeps the mark, reports success |
| Objects.ObjectCell.CopyFrom | src/object.c:36-49 | the cell holds `Copy` of the source |
| Objects.ObjectCell.Free | src/eval.c:181 | freed contents are unspecified; the mark stays |
| Functions.Apply | src/functions.c:7-24 | function_length and function_puts on the argument Object; `LenCounts`, `PutsPrints` and `LenOfConcatenation` state what each does |
| Functions.LenCounts | src/functions.c:7-17 | len fails on non-strings, changing nothing; on a string it gives the length and keeps the mark |
| Functions.PutsPrints | src/functions.c:19-24 | puts succeeds, writes `object_print` of its argument and frees it |
| Functions.LenOfConcatenation | src/functions.c:7-17 | the length of a concatenation is the sum of the lengths |
| Functions.Invoke | src/functions.c:7-24 | a builtin applied in place leaves what `Apply` specifies |
| Hash.Fnv | src/hash.c:38-42 | the first loop of hash_index: 64-bit FNV-1a from the offset basis, one xor-then-multiply round per character in order, wrapping modulo 2^64; `HashIndex` proves the loop computes it and `StandardVector` checks it on a published value |
| Hash.Index | src/hash.c:36-51 | the bucket index is below 256 |
| Hash.HashIndex | src/hash.c:36-51 | the two loops compute `Index`: 64-bit FNV-1a, folded by xor of its bytes |
| Hash.EmptyKey | src/hash.c:36-51 | the empty key folds the offset basis to 0xe1 |
| Hash.StandardVector | src/hash.c:36-51 | "a" hashes to the published FNV-1a value 0xaf63dc4c8601ec8c |
| Hash.Find | src/hash.c:69-75 | the chain walk of hash_retrieve: the value of the first entry whose key matches, or none; `FindFirst` states it without recursion |
| Hash.FindFirst | src/hash.c:65-76 | lookup gives v exactly when some entry binds the key to v and no earlier entry binds the key |
| Hash.FindPrepended | src/hash.c:53-63 | a new head entry shadows older entries with its key and hides no other key |
| Hash.HashTable.Init | src/hash.c:7-12 | a new table binds nothing |
| Hash.HashTable.Insert | src/hash.c:53-63 | the key now retrieves the new value, other keys what they did, and only its bucket changes |
| Hash.HashTable.Retrieve | src/hash.c:65-76 | retrieval returns the first entry's value in the key's bucket |
| Environments.Lookup | src/environment.c:35-54 | environment_retrieve: the binding of the first scope, innermost first, that binds the name, or none; `LookupFailsIffUnbound` and `LookupInnermost` state it without recursion |
| Environments.Bind | src/environment.c:23-33 | an insert rebinds the name in the innermost scope only |
| Environments.LookupFailsIffUnbound | src/environment.c:45-54 | retrieval fails exactly when no scope binds the name |
| Environments.LookupInnermost | src/environment.c:45-54 | retrieval finds scope i's binding exactly when scope i binds the name and no inner scope does |
| Environments.InsertThenRetrieve | src/environment.c:23-54 | after an insert the name retrieves an unmarked copy, other names what they did |
| Environments.PushHidesNothing | src/environment.c:8-15 | a new empty innermost scope changes no retrieval |
| Environments.StoredObjectsUnmarked | src/environment.c:23-33 | inserts keep every stored object unmarked, so retrieval finds unmarked objects |
| Environments.Environment.Scopes | src/environment.c:45-54 | the chain's scopes, starting with this environment's own table |
| Environments.Environment.Push | src/environment.c:8-15 | push gives an environment with an empty table in front of the given chain |
| Environments.Environment.Insert | src/environment.c:23-33 | insert leaves the scopes `Bind` specifies |
| Environments.Environment.RetrieveHere | src/environment.c:35-43 | looks in this table only, copying the binding when there is one |
| Environments.Environment.Retrieve | src/environment.c:45-54 | the walk outward finds what `Lookup` specifies and copies it into the destination |
| Programs.Program.Init | src/program.c:6-13 | a new program has capacity one and no statements |
| Programs.Program.Extend | src/program.c:23-31 | extend appends the statement, doubling the capacity when full |
| Programs.CapacityIsLeastPowerOfTwo | src/program.c:23-31 | after n extends the capacity is the least power of two holding n statements |
| Evaluator.EvalIdentifier | src/eval.c:12-19 | identifier lookup writes nothing |
| Evaluator.Negate | src/eval.c:21-29 | unary minus writes nothing |
| Evaluator.Invert | src/eval.c:31-39 | `!` writes nothing |
| Evaluator.Comparison | src/eval.c:56-71 | `==` and `!=` write nothing |
| Evaluator.Inequality | src/eval.c:73-105 | the orderings write nothing |
| Evaluator.Arithmetic | src/eval.c:107-146 | arithmetic writes nothing |
| Evaluator.Quotient | src/eval.c:141 | C's `/` on `int`, truncating toward zero; `QuotientTruncates` and `QuotientOfNegation` state its properties |
| Evaluator.InfixAux | src/eval.c:148-167 | operator dispatch writes nothing |
| Evaluator.BindArguments | src/eval.c:229-251 | binding changes only the innermost scope, and succeeds only when the counts match |
| Evaluator.CallExternal | src/eval.c:253-270 | a function call's result never carries the returned mark |
| Evaluator.EvalElements | src/eval.c:304-329 | an array literal gives one element per expression |
| Evaluator.EvalStatement | src/eval.c:360-393 | only a successful let changes the scopes, and only the innermost one; return sets the mark |
| Evaluator.EvalExpression | src/eval.c:331-358 | evaluate_expression: dispatch on the expression type, literals written into the caller's Object keeping its mark, and unknown types an error; its cases are stated by the `EvalProperties` lemmas below |
| Evaluator.EvalPrefix | src/eval.c:41-54 | evaluate_prefix_expression: the operand into the same Object, then the operator; `PrefixSemantics` and `PrefixTypeErrors` state it |
| Evaluator.EvalInfix | src/eval.c:169-183 | evaluate_infix_expression: left operand, then right into a fresh local, then the operator; `InfixLeftToRight` states the order |
| Evaluator.BlockAux | src/eval.c:185-197 | evaluate_statement_block_aux: the statements in order into one Object, stopping at a failure or a returned result; `BlockStopsEarly`, `BlockContinues` and `ReturnStopsBlock` state it |
| Evaluator.BlockScopes | src/eval.c:185-197 | the scopes after the last statement the block ran; they differ from the starting scopes in the innermost scope at most |
| Evaluator.EvalStatementBlock | src/eval.c:199-206 | evaluate_statement_block: `BlockAux` in a new empty innermost scope that is discarded afterwards; `PushHidesNothing` says the new scope hides no binding |
| Evaluator.EvalConditional | src/eval.c:208-227 | evaluate_conditional_expression: a boolean condition picks the block, a false one without `else` runs nothing; `ConditionalSemantics` states it |
| Evaluator.CallInternal | src/eval.c:272-285 | evaluate_call_expression_internal: exactly one argument, evaluated into the caller's Object, then the builtin's `Apply`; `CallSemantics` states it |
| Evaluator.EvalCall | src/eval.c:287-302 | evaluate_call_expression: the callee into a fresh local, then a user function or a builtin, and any other object an error; `CallSemantics`, `ArityChecked` and `DynamicScope` state it |
| Evaluator.EvalArray | src/eval.c:304-329 | evaluate_array_expression: the elements in order, an empty literal giving one NULL element; `ElementsInOrder` and `EmptyArrayHasNullElement` state it |
| Evaluator.EvalProgram | src/eval.c:395-415 | evaluate_program: the statements as a block in a global scope holding `puts` and `len`; `GlobalsHoldBuiltins` states the scope |
| EvalProperties.IdentifierFailsIffUnbound | src/eval.c:12-19 | an identifier fails exactly when unbound, and otherwise gives an unmarked copy of the innermost binding |
| EvalProperties.NegationInvolution | src/eval.c:21-29 | unary minus succeeds exactly on integers whose negation fits an `int`, and negating twice restores the object |
| EvalProperties.PrefixTypeErrors | src/eval.c:21-39 | `-` on a non-integer and `!` on a non-boolean are type errors |
| EvalProperties.NotInvolution | src/eval.c:31-39 | `!` inverts booleans, and twice restores the object |
| EvalProperties.PrefixSemantics | src/eval.c:41-54 | the operand is evaluated into the caller's object, then the operator applies; an operand failure fails the whole |
| EvalProperties.InfixLeftToRight | src/eval.c:169-183 | left operand first, then right, then the operator; a failure stops before the next step; output in that order |
| EvalProperties.ComparisonIsBoolean | src/eval.c:56-71 | `==` gives object_equal, `!=` its negation, as a boolean |
| EvalProperties.InequalityTyping | src/eval.c:73-105 | orderings succeed exactly on two integers; the two type errors are distinguished |
| EvalProperties.InequalitiesAgree | src/eval.c:73-105 | `a > b` is `b < a`, `a >= b` is `!(a < b)`, `a <= b` is `!(a > b)` |
| EvalProperties.ArithmeticTyping | src/eval.c:107-146 | strings support only `+`; integers `+ - * /` unless undefined in C; all else fails |
| EvalProperties.SubtractUndoesAdd | src/eval.c:107-146 | subtracting undoes an addition that did not overflow |
| EvalProperties.QuotientTruncates | src/eval.c:107-146 | division truncates toward zero: the remainder is smaller than the divisor and has the dividend's sign |
| EvalProperties.QuotientOfNegation | src/eval.c:107-146 | negating the dividend negates the quotient |
| EvalProperties.ConditionalSemantics | src/eval.c:208-227 | a non-boolean condition fails; otherwise the chosen block runs in a new scope; false without else runs nothing |
| EvalProperties.BlockStopsEarly | src/eval.c:185-197 | a block stops at the first failure or returned result; later statements make no difference |
| EvalProperties.BlockContinues | src/eval.c:185-197 | a block that does not stop gives the last statement's result, with outputs in order |
| EvalProperties.LetBindsInnermost | src/eval.c:360-369 | let binds an unmarked copy in the innermost scope only; a failing expression binds nothing |
| EvalProperties.ReturnStopsBlock | src/eval.c:371-378 | return marks its value, so the block stops after it |
| EvalProperties.CallSemantics | src/eval.c:253-302 | calls fail on non-functions; a function never passes the mark on; a builtin takes exactly one argument |
| EvalProperties.ArityChecked | src/eval.c:229-251 | with evaluating arguments, binding succeeds exactly when counts match; extras are too many, missing ones not enough |
| EvalProperties.ArgumentsBound | src/eval.c:229-251 | distinct parameters are bound in the call's scope to unmarked copies of their arguments; other names keep their binding |
| EvalProperties.DynamicScope | src/eval.c:253-270 | a function body sees the caller's bindings |
| EvalProperties.ElementsInOrder | src/eval.c:304-329 | element i is expression i evaluated into a NULL object, in order |
| EvalProperties.EmptyArrayHasNullElement | src/eval.c:304-329 | an empty array literal gives one NULL element |
| EvalProperties.GlobalsHoldBuiltins | src/eval.c:395-415 | a program starts with `puts` and `len` bound to the builtins |
| Interpreter.EvaluateIdentifier | src/eval.c:12-19 | agrees with `EvalIdentifier` on the environment chain |
| Interpreter.NegativeOperation | src/eval.c:21-29 | agrees with `Negate` |
| Interpreter.NotOperation | src/eval.c:31-39 | agrees with `Invert` |
| Interpreter.EvaluatePrefix | src/eval.c:41-54 | agrees with `EvalPrefix` |
| Interpreter.ComparisonOperation | src/eval.c:56-71 | agrees with `Comparison` |
| Interpreter.InequalityOperation | src/eval.c:73-105 | agrees with `Inequality` |
| Interpreter.ArithmeticOperation | src/eval.c:107-146 | agrees with `Arithmetic` |
| Interpreter.InfixOperation | src/eval.c:148-167 | agrees with `InfixAux` |
| Interpreter.EvaluateInfix | src/eval.c:169-183 | agrees with `EvalInfix` |
| Interpreter.StatementBlockAux | src/eval.c:185-197 | the loop agrees with `BlockAux` on the result, the Object and the output, and leaves the environment holding the scopes `BlockScopes` gives |
| Interpreter.EvaluateStatementBlock | src/eval.c:199-206 | agrees with `EvalStatementBlock`, leaving the caller's scopes as they were |
| Interpreter.EvaluateConditional | src/eval.c:208-227 | agrees with `EvalConditional` |
| Interpreter.BindParameters | src/eval.c:229-251 | the recursion agrees with `BindArguments` on result, output and scopes |
| Interpreter.CallExternal | src/eval.c:253-270 | agrees with `Evaluator.CallExternal` |
| Interpreter.CallInternal | src/eval.c:272-285 | agrees with `Evaluator.CallInternal` |
| Interpreter.EvaluateCall | src/eval.c:287-302 | agrees with `EvalCall` |
| Interpreter.EvaluateElements | src/eval.c:314-327 | the loop agrees with `EvalElements` |
| Interpreter.EvaluateArray | src/eval.c:304-329 | agrees with `EvalArray` |
| Interpreter.EvaluateExpression | src/eval.c:331-358 | agrees with `EvalExpression` |
| Interpreter.EvaluateStatement | src/eval.c:380-393 | agrees with `EvalStatement` on outcome and scopes |
| Interpreter.EvaluateProgram | src/eval.c:395-415 | agrees with `EvalProgram` |

## Left out

- Memory management (malloc, free, the `*_free` functions) and the printing of diagnostics are not modelled. Errors are values (`EvalError`, `ParseError`) or failure flags.
- The lexer reads a `FILE*`; here it reads a character sequence. Characters are `char`, and the hash treats them as signed bytes.
- The lexer never sets a token's line or column, so both stay 0.
- Evaluator.EvalStatement: a let statement without a name gives the error `UnexpectedStatement`. In the C code `environment_insert` would then receive a NULL name. The parser never builds such a statement.
- `Lexer.NextToken`: after END has set the end-of-file indicator, every later call fails with a NONE token.
- `object_equal`, `string_length` and `string_concatenate` are not part of this model. The first is the parameter `equal`; the other two are taken as the length and concatenation of the text.
- `object_copy` in src/object.c knows four tags. `Objects.Copy` copies every tag, including builtins and arrays, as the evaluator needs.
- Objects whose contents the source leaves unspecified (freed, or never written) are `Indeterminate`. Their returned mark is taken to be clear.
- Evaluator: C `int` overflow and division by zero are undefined in C. They are the error `UndefinedBehaviour` here.
- Evaluator: recursion depth is bounded by `fuel`. Programs deeper than the fuel give `OutOfFuel`; the C stack limit is not modelled.
- LibC: `atoi` overflow is not modelled; the mathematical value is kept.
- Environments: the table of an environment is a `map` in `Environments.Environment`. `Hash.HashTable` models hash.c on its own, with chains as sequences.
- Interpreter.EvaluateElements: the array's linked list is built as a sequence and stored at the end, so the in-place list building is not captured.
- Parsing: `parser_parse_call_expression` never calls the argument parser, so `f()` fails to parse. `ParseCallArguments` is modelled but unused, as in the source.
- Parsing: macro, quote and unquote tokens fail the expression parse without recording an error. Their expression types are not modelled.
- `ParserSpec.ParseGrouped`: when `)` is missing, the error carries the last token of the inner expression, not the lookahead, as the source does.
- The `*_print` functions are modelled as the text they write. `program_print` and `statement_free` are left out, because they only print or free.
