# eerolang and the day 1 dial, in Dafny

This project models two programs and proves properties of the models.

**eerolang** is a small interpreted language. It runs a source text in three stages:

1. `tokenize` turns the characters into tokens.
2. `parse` turns the tokens into a block of statements.
3. `Program::execute` runs the statements over a table of variables, calling the builtins `print`, `readfile`, `split` and `len`.

The model follows the source stage by stage:

- `Tokenizer` (tokenizer.dfy) holds the token, operator and value datatypes and the operator precedence. The scanner is specified by `Lex(s, i)`, the tokens of `s` from index `i` on. The scanner's loops are the methods `SkipComment`, `ScanString`, `ScanIdentifier`, `ScanNumber`, `ScanLexeme` and `Tokenize`, each proved to compute its specification function.
- `AstParser` (ast_parser.dfy) holds the syntax tree. Every parsing routine is a function of the token sequence and a cursor index. The routines' loops and recursion are methods that thread that index, each proved equal to its function.
- `Builtins` (builtins.dfy) holds `split`, `len`, `readfile` and the text `print` writes.
- `Interpreter` (interpreter.dfy) holds the evaluator. Evaluation is pure: it returns what `print` wrote along the way, and the value or the error it aborts with. `Program` is a class with the variable table and the written output as fields. Its `Execute` method runs the block and is proved to agree with `ExecFrom`.
- `Pipeline` (pipeline.dfy) is what `main` does with a source text once it is read.
- `TokenizerFacts`, `ParserFacts`, `BuiltinsFacts` and `InterpreterFacts` hold the properties.

Every `panic!`, failed `unwrap`/`expect` and failed `assert_eq!` of the source is an error value: `LexError`, `ParseError`, `BuiltinError` or `RuntimeError`.

Two points where the source is inconsistent:

- The parser matches `Token::Eol` (day1/eerolang/src/ast_parser.rs:164), but the `Token` enum of tokenizer.rs has no such variant. The model has an `Eol` token that the parser skips. No rule of the lexer produces it (`Tokenizer.LexEmittable`).
- `Value::List` is declared over a shared `Rc<RefCell<Vec<Value>>>`, but it is built from plain vectors. No operation of the language mutates a list, so the model gives lists value semantics.

**The dial** (day01/part2.py) is a safe dial with positions 0 to 99, starting at 50. Each input line names a direction (`L` for down, anything else for up) and a number of clicks. The script counts the clicks that land on 0. `Dial.Solve` is the script's pair of nested loops. It is proved to compute `ApplyPrefix`, a fold of single clicks. The lemmas give that fold's closed form, its bounds and the full-turn property.

## Model

| member | source | states |
|---|---|---|
| Tokenizer.Precedence | day1/eerolang/src/tokenizer.rs:30-36 | `+` and `-` rank 0, `*` and `/` rank 1, and nothing ranks higher |
| Tokenizer.CommentEnd | day1/eerolang/src/tokenizer.rs:66-73 | a comment stops at the next line feed, without consuming it, or at the end of the text |
| Tokenizer.IdentEnd | day1/eerolang/src/tokenizer.rs:102-111 | the run of letters and digits after an identifier's first letter is maximal |
| Tokenizer.NumberEnd | day1/eerolang/src/tokenizer.rs:119-133 | the number scan never moves backwards, and once a `.` has been seen the literal is a float |
| Tokenizer.ParseI64 | day1/eerolang/src/tokenizer.rs:140-144 | `parse::<i64>` succeeds exactly on non-empty all-digit text whose decimal value is at most `i64::MAX`, and then yields that value |
| Tokenizer.Step | day1/eerolang/src/tokenizer.rs:52-151 | each lexeme the scanner reads ends strictly past its first character and within the text |
| Tokenizer.LexEmittable | day1/eerolang/src/tokenizer.rs:47-157 | every token the lexer returns is one it can produce: never `Eol`, and an Integer literal within the i64 range |
| Tokenizer.SkipComment | day1/eerolang/src/tokenizer.rs:66-73 | the comment loop stops where `CommentEnd` says |
| Tokenizer.ScanString | day1/eerolang/src/tokenizer.rs:74-101 | the string loop, with its `escape` flag and `tbuf` buffer, collects exactly the body `StringBody` describes and stops where it says |
| Tokenizer.ScanIdentifier | day1/eerolang/src/tokenizer.rs:102-111 | the identifier loop collects exactly the text from the first letter to `IdentEnd` |
| Tokenizer.ScanNumber | day1/eerolang/src/tokenizer.rs:119-133 | the number loop collects exactly the text up to `NumberEnd`, and its `is_float` flag is `NumberEnd`'s |
| Tokenizer.ScanLexeme | day1/eerolang/src/tokenizer.rs:53-151 | the dispatch of the main loop on one character computes `Step` |
| Tokenizer.Tokenize | day1/eerolang/src/tokenizer.rs:47-157 | `tokenize` returns `Lex(source, 0)`: the tokens of the whole text in source order, or the first lexical error |
| TokenizerFacts.LexPunctuation | day1/eerolang/src/tokenizer.rs:54-65 | text made of the single-character tokens and whitespace gives exactly those tokens, one per character, in order |
| TokenizerFacts.LexWhitespace | day1/eerolang/src/tokenizer.rs:147 | text that is all whitespace gives no token |
| TokenizerFacts.LexOnePlusTwo | day1/eerolang/src/tokenizer.rs:54-65 | `1+2` gives Integer 1, Plus, Integer 2 |
| TokenizerFacts.CommentEndAt | day1/eerolang/src/tokenizer.rs:66-73 | a comment ends at the first line feed after it, or at the end of the text |
| TokenizerFacts.CommentHasNoNewline | day1/eerolang/src/tokenizer.rs:66-73 | a comment never contains a line feed |
| TokenizerFacts.LexCommentLine | day1/eerolang/src/tokenizer.rs:66-73 | a comment yields no token, and scanning resumes on the next line |
| TokenizerFacts.LexCommentOnly | day1/eerolang/src/tokenizer.rs:66-73 | a comment that runs to the end of the text yields no tokens |
| TokenizerFacts.LexEscapes | day1/eerolang/src/tokenizer.rs:85-93 | on one source that holds every escape: `\n`, `\t`, `\r`, `\\` and `\"` stand for their characters, and `\q` gives `q` |
| TokenizerFacts.StringBodyOfEscape | day1/eerolang/src/tokenizer.rs:74-98 | for every text `t`, the body of `t` with backslashes and quotes escaped, followed by a quote, reads back as `t` and ends just past that quote |
| TokenizerFacts.LexQuoted | day1/eerolang/src/tokenizer.rs:74-101 | a quoted, escaped text is one String token holding that text, followed by the tokens of what comes after it |
| TokenizerFacts.StringBodyEnds | day1/eerolang/src/tokenizer.rs:76-98 | a string body ends just past the first quote that the loop's escape flag (`EscapedAt`) does not cover, or at the end of the text: every quote before the end is escaped and the closing one is not |
| TokenizerFacts.StringBodyPlain | day1/eerolang/src/tokenizer.rs:77-98 | without quotes or backslashes the body is the rest of the text as written |
| TokenizerFacts.LexUnterminatedString | day1/eerolang/src/tokenizer.rs:74-101 | an unterminated string is still emitted with the text collected, and it is the last token |
| TokenizerFacts.LexStringToEnd | day1/eerolang/src/tokenizer.rs:74-101 | a string body that reaches the end of the text is the last token |
| TokenizerFacts.IdentEndAt | day1/eerolang/src/tokenizer.rs:102-111 | the identifier ends at the first character that is not a letter or a digit |
| TokenizerFacts.LexWord | day1/eerolang/src/tokenizer.rs:102-118 | a word is `KeywordFor` for `for`, `KeywordIn` for `in`, and otherwise `Ident` with exactly the word's text; scanning resumes after the word |
| TokenizerFacts.NumberEndDigits | day1/eerolang/src/tokenizer.rs:122-125 | the number scan passes over every digit |
| TokenizerFacts.LexInteger | day1/eerolang/src/tokenizer.rs:119-146 | a maximal run of digits with no `.` is one Integer with its decimal value, and it is fatal when that value exceeds `i64::MAX` |
| TokenizerFacts.LexFloat | day1/eerolang/src/tokenizer.rs:119-139 | digits, one `.` and digits make one Float literal |
| TokenizerFacts.LexSecondDot | day1/eerolang/src/tokenizer.rs:119-150 | a second `.` ends the number, and a `.` on its own is an unexpected character |
| TokenizerFacts.LexUnexpected | day1/eerolang/src/tokenizer.rs:148-150 | any character outside the recognised classes is fatal |
| TokenizerFacts.NumberEndShape | day1/eerolang/src/tokenizer.rs:119-133 | a number literal is a maximal run of digits with at most one `.`, and it is a float exactly when it holds a `.` |
| AstParser.CommaList | day1/eerolang/src/ast_parser.rs:17-41 | a comma-separated list is parsed or fatal, never absent; a parsed list consumes at least its end token |
| AstParser.FunctionCallAt | day1/eerolang/src/ast_parser.rs:43-54 | a parsed call is a `FunctionCall` node with the identifier's name, and it consumes at least `(` |
| AstParser.PrimaryAt | day1/eerolang/src/ast_parser.rs:56-92 | a primary expression that parses consumes at least one token, so the cursor moves forward |
| AstParser.ExpressionAt | day1/eerolang/src/ast_parser.rs:95-101 | an expression that parses consumes at least one token |
| AstParser.ExpressionTail | day1/eerolang/src/ast_parser.rs:103-139 | the operator loop always yields an expression or aborts; it never moves the cursor back, and it consumes a token whenever an operator of enough precedence follows |
| AstParser.Climb | day1/eerolang/src/ast_parser.rs:122-133 | the inner loop always yields an operand or aborts, and never moves the cursor back |
| AstParser.ParseCommaSeparatedList | day1/eerolang/src/ast_parser.rs:17-41 | the list loop, pushing onto `elements`, computes `CommaList` |
| AstParser.ParseFunctionCall | day1/eerolang/src/ast_parser.rs:43-54 | `parse_function_call` computes `FunctionCallAt` |
| AstParser.ParsePrimaryExpression | day1/eerolang/src/ast_parser.rs:56-92 | `parse_primary_expression` computes `PrimaryAt` |
| AstParser.ParseExpression | day1/eerolang/src/ast_parser.rs:95-101 | `parse_expression` computes `ExpressionAt` |
| AstParser.ParseExpressionImpl | day1/eerolang/src/ast_parser.rs:103-139 | the precedence-climbing loop, reassigning `left` and `right`, computes `ExpressionTail` |
| AstParser.Parse | day1/eerolang/src/ast_parser.rs:141-173 | the statement loop, pushing onto `block`, computes `Block` |
| ParserFacts.TermRestStops | day1/eerolang/src/ast_parser.rs:108-111 | after the loop over `*` and `/`, no operator of the higher level follows |
| ParserFacts.TailIsTerm | day1/eerolang/src/ast_parser.rs:103-139 | the loop at the higher level folds the `*` and `/` operators to the left, as the term rule of a two-level grammar does |
| ParserFacts.ClimbIsTerm | day1/eerolang/src/ast_parser.rs:122-133 | after `+` or `-` the right operand absorbs the `*`/`/` chain that follows; after `*` or `/` it absorbs nothing |
| ParserFacts.TailIsSum | day1/eerolang/src/ast_parser.rs:103-139 | the loop at the lower level is a sum of terms folded to the left |
| ParserFacts.ExpressionIsStratified | day1/eerolang/src/ast_parser.rs:95-139 | precedence climbing parses exactly as the two-level grammar does, for every token sequence: `*` and `/` bind more strongly than `+` and `-`, and each level groups to the left |
| ParserFacts.ChainFrom | day1/eerolang/src/ast_parser.rs:108-136 | the remaining operators of a one-level chain fold onto the tree built so far |
| ParserFacts.LeftAssociative | day1/eerolang/src/ast_parser.rs:122-136 | for any chain of literals with operators of one level, the tree is nested to the left, with the last operator at the root |
| ParserFacts.ProductBindsTighter | day1/eerolang/src/ast_parser.rs:103-139 | `1 + 2 * 3` is `1 + (2 * 3)` |
| ParserFacts.ParenthesesGroup | day1/eerolang/src/ast_parser.rs:75-139 | `(1 + 2) * 3` is `(1 + 2) * 3`, and the parentheses add no node |
| ParserFacts.SubtractionGroupsLeft | day1/eerolang/src/ast_parser.rs:122-136 | `8 - 3 - 2` is `(8 - 3) - 2` |
| ParserFacts.NoPrimary | day1/eerolang/src/ast_parser.rs:56-98 | there is no primary, and then no expression, exactly when the next token is not a literal, identifier, `(` or `[` |
| ParserFacts.IdentifierPrimary | day1/eerolang/src/ast_parser.rs:43-74 | an identifier followed by `(` is a call with the list up to `)`; otherwise it is a variable and only the identifier is consumed |
| ParserFacts.ParenthesisedPrimary | day1/eerolang/src/ast_parser.rs:75-84 | `( expr` must be followed by `)`, which is consumed; anything else, or the end of the tokens, is fatal |
| ParserFacts.OperatorNeedsOperand | day1/eerolang/src/ast_parser.rs:114-115 | an operator with no primary expression after it is fatal |
| ParserFacts.LiteralList | day1/eerolang/src/ast_parser.rs:17-41 | an immediate end token is the empty list, elements are kept in order, one trailing `,` is accepted, and the end token is consumed |
| ParserFacts.ListNeedsSeparator | day1/eerolang/src/ast_parser.rs:30-38 | an element followed by anything but `,` or the end token is fatal |
| ParserFacts.BracketedLiterals | day1/eerolang/src/ast_parser.rs:85-89 | `[` and a list of literals is one `List` node holding them in order |
| ParserFacts.OnlyStatements | day1/eerolang/src/ast_parser.rs:141-173 | `parse` returns only assignments and calls |
| ParserFacts.StatementStart | day1/eerolang/src/ast_parser.rs:146-169 | `Eol` is skipped; an identifier at the end of the tokens, an identifier followed by neither `=` nor `(`, and any other first token are fatal |
| ParserFacts.AssignThenCall | day1/eerolang/src/ast_parser.rs:146-163 | `x = 1 print(x)` is an assignment, then a call, in source order |
| Builtins.SplitFrom | day1/eerolang/src/program.rs:62-63 | a split has at least one piece |
| Builtins.Utf8Length | day1/eerolang/src/program.rs:74 | a string's byte length lies between one and four bytes per character |
| Builtins.AsI64 | day1/eerolang/src/program.rs:74-75 | the `as i64` cast always gives a 64-bit value, and leaves a length up to `i64::MAX` unchanged |
| Builtins.TrimStartFrom | day1/eerolang/src/program.rs:52 | trimming at the front stops at the first character that is not whitespace |
| Builtins.TrimEndFrom | day1/eerolang/src/program.rs:52 | trimming at the back stops after the last character that is not whitespace |
| Builtins.NatToString | day1/eerolang/src/program.rs:14 | an integer is written with at least one digit |
| Builtins.CallBuiltin | day1/eerolang/src/program.rs:10-95 | only `print` writes anything, and only `print` returns no value |
| BuiltinsFacts.SplitJoin | day1/eerolang/src/program.rs:55-68 | for every text and every delimiter, the empty one included, joining the pieces of `split` with the delimiter gives back the text |
| BuiltinsFacts.SplitPiecesFree | day1/eerolang/src/program.rs:62-65 | with a non-empty delimiter, no piece of `split` contains the delimiter |
| BuiltinsFacts.SplitExample | day1/eerolang/src/program.rs:55-68 | `split("a,b,,c", ",")` is `["a", "b", "", "c"]` |
| BuiltinsFacts.SplitEmptyDelimiter | day1/eerolang/src/program.rs:62-63 | for every text, the empty delimiter gives `|s| + 2` pieces: an empty one, each character on its own in order, and an empty one |
| BuiltinsFacts.SplitEmptyExample | day1/eerolang/src/program.rs:62-63 | `split("ab", "")` is `["", "a", "b", ""]` |
| BuiltinsFacts.AsciiLength | day1/eerolang/src/program.rs:74 | an ASCII string takes one byte per character |
| BuiltinsFacts.LenCases | day1/eerolang/src/program.rs:70-78 | `len` is the byte length of a string and the element count of a list; it is fatal for any other value and for any argument count but one |
| BuiltinsFacts.LenCountsBytes | day1/eerolang/src/program.rs:74 | `len("héllo")` is 6 |
| BuiltinsFacts.DecimalRoundTrip | day1/eerolang/src/program.rs:14-21 | what `print` writes for a non-negative integer is all digits, and reads back as that integer |
| BuiltinsFacts.NoLeadingZero | day1/eerolang/src/program.rs:14 | the written number starts with `0` only when it is 0 |
| BuiltinsFacts.RenderExample | day1/eerolang/src/program.rs:10-40 | `print(1, "x", [1,2])` writes `1 "x" [1, 2]` and a newline |
| BuiltinsFacts.RenderNothing | day1/eerolang/src/program.rs:33-37 | `print()` writes a single newline |
| BuiltinsFacts.RenderNested | day1/eerolang/src/program.rs:17-31 | for every list, a list argument is written as its element texts between brackets, separated by `, `, and each list inside it as `<nested list>` |
| BuiltinsFacts.RenderNestedExample | day1/eerolang/src/program.rs:17-31 | `print([-5, []])` writes `[-5, <nested list>]` and a newline |
| BuiltinsFacts.RenderCons | day1/eerolang/src/program.rs:12-36 | for any arguments, the first one is followed by exactly one space and then what the remaining arguments write |
| BuiltinsFacts.RenderEnds | day1/eerolang/src/program.rs:33-37 | for any arguments, `print` ends with exactly one line feed and no space before it, and writes only the line feed exactly when it has no arguments |
| BuiltinsFacts.TrimEnds | day1/eerolang/src/program.rs:52 | the trimmed text neither starts nor ends with whitespace |
| Interpreter.Checked | day1/eerolang/src/program.rs:128-130 | an integer result is kept exactly when it fits in 64 bits, and aborts otherwise |
| Interpreter.Program.constructor | day1/eerolang/src/program.rs:89-101 | a new program holds the block, an empty variable table and no output |
| Interpreter.Program.Execute | day1/eerolang/src/program.rs:170-189 | `execute` leaves the variables `ExecFrom` computes, appends what the block writes to the output, and returns the error it stopped at |
| InterpreterFacts.Leaves | day1/eerolang/src/program.rs:105-106 | a literal evaluates to its value and a variable to its binding; an unbound variable aborts |
| InterpreterFacts.ListElementwise | day1/eerolang/src/program.rs:110-116 | a list evaluates exactly when every element does, into a list of the same length holding each element's value in order |
| InterpreterFacts.ListFirstError | day1/eerolang/src/program.rs:110-116 | a list that fails has the error of its first failing element |
| InterpreterFacts.ListValue | day1/eerolang/src/program.rs:110-116 | a `List` node whose elements all evaluate is a list value of the same length, holding those values in order |
| InterpreterFacts.OperatorCases | day1/eerolang/src/program.rs:117-153 | String `+` String concatenates, two Integers use integer arithmetic, a Float with a number gives a Float; the operation is unsupported exactly when a List is involved, a String meets a number, or two Strings meet an operator other than `+` |
| InterpreterFacts.OperandsInOrder | day1/eerolang/src/program.rs:118-119 | the left operand is evaluated first and its error stops the evaluation; the right operand's error comes after the left operand's output |
| InterpreterFacts.TruncRemMagnitude | day1/eerolang/src/program.rs:131 | Rust's `/` truncates toward zero: `a - (a / b) * b` is the remainder of the magnitudes with the sign of the dividend, and the quotient's magnitude is `|a|` less that remainder, divided by `|b|` |
| InterpreterFacts.TruncDivExamples | day1/eerolang/src/program.rs:131 | `-7 / 2` is -3 in the source, where Dafny's `/` gives -4 |
| InterpreterFacts.IntegerOpErrors | day1/eerolang/src/program.rs:126-133 | a zero divisor is fatal, and each operation aborts exactly when its exact result leaves the 64-bit range |
| InterpreterFacts.DivisionOverflow | day1/eerolang/src/program.rs:131 | for 64-bit operands and a non-zero divisor, division aborts exactly for `i64::MIN / -1` |
| InterpreterFacts.UndefinedFunctionFatal | day1/eerolang/src/program.rs:158-167 | a call to a name outside the builtin table is fatal, after its arguments are evaluated |
| InterpreterFacts.ArgumentBeforeFunction | day1/eerolang/src/program.rs:159-166 | an argument's error comes before the check of the function's name |
| InterpreterFacts.PrintStatement | day1/eerolang/src/program.rs:179-182 | a `print` statement writes its arguments' output, then their rendering, and leaves the variables as they are |
| InterpreterFacts.PrintAsValue | day1/eerolang/src/program.rs:107-109 | `print` used as a value writes its text and then aborts, because it returns no value |
| InterpreterFacts.BuiltinAsValue | day1/eerolang/src/program.rs:107-109 | any other builtin used as a value gives its result, or aborts with its error |
| InterpreterFacts.AssignmentEffect | day1/eerolang/src/program.rs:174-178 | an assignment binds the name to the value, adds exactly that key, and leaves every other binding unchanged |
| InterpreterFacts.OtherStatementFatal | day1/eerolang/src/program.rs:183-186 | a statement that is neither an assignment nor a call is evaluated, then aborts |
| InterpreterFacts.StatementKeepsKeys | day1/eerolang/src/program.rs:172-188 | a statement never removes a binding |
| InterpreterFacts.RunKeepsBindings | day1/eerolang/src/program.rs:170-189 | a run never removes a binding, and leaves alone a binding, or the absence of one, that no statement assigns |
| InterpreterFacts.RunConcat | day1/eerolang/src/program.rs:172 | statements run in order: running `b1 + b2` runs `b1`, then `b2` from the variables `b1` left, unless `b1` aborted |
| InterpreterFacts.DivideThenPrint | day1/eerolang/src/program.rs:126-182 | `x = 7 / -2` then `print(x)` binds -3 and writes `-3` |
| InterpreterFacts.AbortKeepsEarlierOutput | day1/eerolang/src/program.rs:170-189 | for every block: when a statement aborts after the statements before it ran, the run keeps their variables and output, adds the failing statement's output, ends with its error, and runs nothing after it |
| InterpreterFacts.PrintThenAbort | day1/eerolang/src/program.rs:170-189 | `print(1)`, `y = z` with `z` unbound, `print(2)`: the run writes `1` and a newline and stops at `z` |
| Pipeline.RunProgram | day1/eerolang/src/main.rs:21-28 | `main` on a source text tokenizes, parses, and runs a new program, with the outcome `RunSource` describes |
| Pipeline.NothingRunsBeforeParsing | day1/eerolang/src/main.rs:21-28 | the lexer fails exactly when the run fails in lexing; no program output is written when lexing or parsing fails |
| Pipeline.AssignThenPrint | day1/eerolang/src/main.rs:21-28 | the tokens of `x = 1 print(x)` run to print `1` |
| Dial.Direction | day01/part2.py:8-11 | `L` gives -1 and any other first character +1 |
| Dial.Clicks | day01/part2.py:12-13 | a line makes `amount` clicks, or none when the amount is negative |
| Dial.ClickMoves | day01/part2.py:14 | a click moves the dial one position up or down modulo 100 and keeps it in 0..99 |
| Dial.TurnPosition | day01/part2.py:13-14 | after `n` clicks from `p` the dial is at `(p + dir * n) mod 100` |
| Dial.TurnCount | day01/part2.py:13-16 | a line adds to the count the number of `k` in `1..n` with `(p + dir * k) mod 100 == 0` |
| Dial.TurnBounds | day01/part2.py:13-16 | a line never lowers the count, adds at most one per click, and leaves the dial in 0..99 |
| Dial.ClickCounts | day01/part2.py:15-16 | a click adds one to the count exactly when it lands on 0 |
| Dial.FullTurn | day01/part2.py:13-16 | 100 clicks in one direction return the dial to where it was and add exactly 1 to the count |
| Dial.ApplyBounds | day01/part2.py:7-16 | a line keeps the dial in 0..99 and adds between 0 and `amount` to the count |
| Dial.PrefixBounds | day01/part2.py:4-16 | from the start at 50, the dial stays in 0..99 after every line, and the count never decreases |
| Dial.PrefixIsFold | day01/part2.py:7-16 | the lines up to `i`, and then the rest, are all the lines |
| Dial.SolveIsFold | day01/part2.py:7-16 | applying all lines from the left is the fold over the lines |
| Dial.Solve | day01/part2.py:4-16 | the nested loops compute the position and the count of the fold from the start at 50, line by line and click by click |
| Dial.UpToZero | day01/part2.py:13-16 | turning up from `p` by `100 - p` lands on 0 and counts it once |
| Dial.DownToZero | day01/part2.py:13-16 | turning down from `p` by `p` lands on 0 and counts it once |
| Dial.FromStart | day01/part2.py:4-16 | `R50` and `L50` from the start each land on 0 once |
| Dial.TurnAdd | day01/part2.py:13-16 | `a + b` clicks are `a` clicks followed by `b` clicks |
| Dial.DownPastZeroTwice | day01/part2.py:4-16 | `L150` from the start passes 0 twice and ends on it |

## Left out

- Reading the source file, the command line and the logger setup of `main` (day1/eerolang/src/main.rs:10-19) are I/O. `Pipeline.RunProgram` takes the source text.
- Standard output is not modelled as a device. What `print` writes is a string that evaluation returns and that `Program` appends to its `output` field. The write errors that `unwrap` would turn into panics, and the flush, are left out.
- `readfile` reads a `files` map that stands for the file system. The read either finds the name or aborts. File encodings and I/O errors other than a missing file are left out.
- Floating point: a Float is a bare value tag. Float parsing, the promotion of an Integer to a Float, float arithmetic and float formatting (`print` writes `<float>` for it) are left out. Only the fact that an operation involving a Float gives a Float is modelled.
- `Rc`/`RefCell` sharing of strings and lists is left out: values are plain values.
- The `trace!` and `error!` logging calls have no effect on the result and are left out.
- Character classes are ASCII. `is_alphabetic`, `is_alphanumeric` and `is_whitespace` in Rust are Unicode predicates. Here letters are `a-z`/`A-Z`, digits are `0-9`, and whitespace is space, tab, line feed, carriage return, vertical tab and form feed. The same whitespace set is used by `trim` in `readfile`.
- Integer overflow in `+`, `-` and `*` aborts, as in a debug build of the source. The wrap-around of these three in a release build is not modelled. Division by zero and `i64::MIN / -1` abort in every build.
- The builtin table of `Program` is the constant set `Builtins.BuiltinNames` with dispatch by name (`Builtins.CallBuiltin`), not a field, because no operation changes it.
- `Pipeline.NothingRunsBeforeParsing` and `AstParser.Block` leave out the debug dump that `parse` writes to stdout just before it panics on a token no statement can start with (day1/eerolang/src/ast_parser.rs:165-166): the `{:#?}` rendering of the statements parsed so far. The model's `ParseFailed` outcome writes nothing, because an AST node's debug format is a formatting detail of Rust's derived `Debug`, not program output.
- day01/part2.py:1-2 (reading and splitting `input.txt`) and day01/part2.py:18 (the final print) are I/O. The input is a sequence of `Move(first, amount)` pairs. `int(line[1:])` is left out, including its errors. An empty line, where `line[0]` raises in the script, cannot be expressed, because every `Move` has a first character.
- `Dial.Solve` returns the final position beside the count. The script prints only the count.
