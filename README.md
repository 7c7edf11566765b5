# A verified model of four tiny C++ interpreters

The repository holds four C++ attempts at one small interpreter for a Python-like
language of integer assignments and `print` calls. Each variant is modelled
separately and as written, in a module of its own:

- **PythonTest1** (`pythontest1.cpp`): the richest variant.
  - A character scanner whose keyword rules are odd: every `i` is IF and every `e` is ELSE.
  - `parseExpression`: a flat left fold over `+ - > <`.
  - A `parse` loop that discards everything on a syntax error.
  - AST nodes that pass values to each other through the context key `"__expr_result"`.
- **MyPython** (`mypython.cpp`): an earlier variant.
  - The scanner's letter and digit code is unreachable, so letters and digits are dropped.
  - `parse` takes assignments in two stages.
  - `parse` requires a strict `print(STRING, ID)` and throws otherwise.
  - `ExpressionNode` counts a missing operand as 0.
- **MPython** (`mpython.cpp`): the simplest token-based variant.
  - It recognises the `print` keyword and builds literal assignments.
  - `parse` skips every other token.
- **Testing** (`testing.cpp`): a line interpreter with no tokens.
  - Lines are read with `std::getline`.
  - A line that contains `print` is a print and any other line is an assignment.
  - Both kinds are decoded with stream extraction.
  - A global `std::map` is updated in place.

Two shared modules carry the C++ library behaviour the variants depend on:

- **CppStd**:
  - the `<cctype>` classes in the "C" locale;
  - the 32-bit `int` range;
  - `std::to_string` and `std::stoi`;
  - `std::getline`;
  - the formatted extraction `>>` of `int`, `char` and `std::string`, including the clamping of out-of-range integers;
  - `find` and `find_last_of`;
  - `operator[]` of the map containers, which inserts a new key with value 0.
- **Wrappers**: `Option`, standing for null pointers and for absent values.

For each variant, the model is built like this:

- **Scanner.** A specification function `Step` gives one turn of the `tokenize` loop: the tokens it pushes and the number of characters it reads. `Lex` is the scan of the whole text plus the END token. The method `Tokenize` runs the loop with an index and is proved equal to `Lex`.
- **Parser.** Index-based functions (`PrintAt`, `AssignmentAt`, `ExpressionAt`, and so on) specify the parser. The iterator `it`, which C++ shares by reference, becomes a position passed in and returned. Methods run the source's `while` loops, call those functions for the straight-line steps, and are proved equal to the functions. In pythontest1.cpp, `Parse` calls `ParseExpression` and `ParseIfElse`, which run the loops of `parseExpression` and of the braces through `ParseOperations` and `ParseBranch`.
- **Evaluator.** `Eval` gives `evaluate` of each node class over a state: the context map plus the output lines. `Execute` is the evaluation loop of `main`; in pythontest1.cpp it runs an IfElseNode with `EvaluateIfElse`, the method holding the two branch loops.
- **Testing.** This variant is an `Interpreter` class whose fields are the global map and the output lines. It has one method per C++ function, and each is proved against a function on values.

Undefined behaviour is modelled as an explicit fault result, never as a precondition. This covers:

- a null child called;
- the end iterator dereferenced or advanced;
- `pop_back` on an empty string;
- an uninitialised `int` read;
- signed overflow.

A thrown `std::runtime_error` is modelled as an error result that carries its message. A throwing `std::stoi` is an error result that carries the position of the NUM token it was given.

## Model

| member | source | states |
|---|---|---|
| CppStd.Clamp32 | pythontest1.cpp:270-271 | An `int` extraction stores the value when it fits in 32 bits, INT_MAX above the range and INT_MIN below it |
| CppStd.NatToString | pythontest1.cpp:272 | `std::to_string` of a non-negative value is non-empty text made only of digits |
| CppStd.NatToStringDecimal | pythontest1.cpp:272 | The digits written by `std::to_string` read back as the value that was written |
| CppStd.NatToStringCanonical | pythontest1.cpp:272 | `std::to_string` writes no leading zero |
| CppStd.CanonicalIsNatToString | pythontest1.cpp:272 | Conversely, digit text without leading zeros is exactly `std::to_string` of its value |
| CppStd.DigitRun | pythontest1.cpp:271 | The digits `>> num` consumes: the longest all-digit prefix |
| CppStd.AlnumRun | pythontest1.cpp:275-278 | The characters the `peek` loop appends: the longest alphanumeric prefix |
| CppStd.SpaceRun | testing.cpp:15 | The whitespace formatted extraction skips: the longest blank prefix |
| CppStd.WordRun | testing.cpp:15 | The characters `>> std::string` takes: the longest prefix without whitespace |
| CppStd.IndexOf | pythontest1.cpp:240 | The position of the first delimiter, or the length of the text when there is none |
| CppStd.Getline | testing.cpp:52 | `std::getline` returns the text before the first delimiter, without it. It consumes that text plus the delimiter when there is one, and otherwise all the text |
| CppStd.Stoi | mpython.cpp:199 | `std::stoi` gives a value within `int` or throws (None) |
| CppStd.StoiOfNatToString | pythontest1.cpp:295 | `std::stoi` reads back the text `std::to_string` wrote for any `int` value |
| CppStd.ExtractInt | testing.cpp:15 | `>> value` fails exactly when only whitespace is left. Otherwise it stores a value within `int`, and 0 when no digits follow the blanks and the optional sign |
| CppStd.IntToString | pythontest1.cpp:197 | `std::to_string(int)`, also what `operator<<(int)` writes at testing.cpp:27 and mpython.cpp:80: the canonical decimal digits of the value, after a `-` exactly for a negative value |
| CppStd.ExtractWord | testing.cpp:15 | `>> word` fails exactly when only whitespace is left. Otherwise the word is non-empty and has no whitespace, and what follows it is empty or starts with whitespace |
| CppStd.ExtractChar | testing.cpp:15 | `>> ch` fails exactly when only whitespace is left, and otherwise reads a non-blank character |
| CppStd.IntMaxTextIsToString | pythontest1.cpp:271-272 | The NUM text pushed after an overflowing extraction is `std::to_string(INT_MAX)`, canonical and of value INT_MAX |
| CppStd.Touch | testing.cpp:27 | `variables[identifier]` keeps every binding and adds the key with 0 when it is new |
| CppStd.FindFirst | testing.cpp:20 | `find(c)` is the first index holding `c`, or `npos` (None) when `c` does not occur |
| CppStd.FindLast | testing.cpp:21 | `find_last_of(c)` is the last index holding `c`, or `npos` (None) when `c` does not occur |
| Testing.AssignmentOf | testing.cpp:15 | `stream >> identifier >> equals >> value` yields a non-empty name and an `int` value, or fails before `value` is written |
| Testing.Substr | testing.cpp:22 | `substr(pos, count)` is at most `count` characters from `pos`, cut at the end of the string |
| Testing.AssignLine | testing.cpp:10-17 | processAssignment never writes output |
| Testing.PrintLine | testing.cpp:19-28 | processPrint appends exactly one output line and keeps the earlier ones |
| Testing.RunTextIsInterpret | testing.cpp:51-56 | Reading the file line by line with `getline` and processing each line runs exactly the lines of the text, in order |
| Testing.Interpreter.constructor | testing.cpp:8 | The global map starts empty and nothing has been written |
| Testing.Interpreter.ProcessAssignment | testing.cpp:10-17 | The new map and output, or the uninitialised-value fault, as an assignment line defines them |
| Testing.Interpreter.ProcessPrint | testing.cpp:19-28 | The new map (identifier inserted with 0 when new) and the output with the printed line appended, or the `pop_back` fault |
| Testing.Interpreter.ProcessLine | testing.cpp:30-36 | A line containing `print` anywhere is processed as a print, every other line as an assignment |
| Testing.Interpreter.Run | testing.cpp:51-56 | The loop over `getline` skips empty and `#` lines and processes the rest in file order. It ends in the state that running the text's lines defines |
| Testing.Interpreter.RunLine | testing.cpp:52-55 | One turn of that loop consumes at least one character and leaves the rest of the run unchanged |
| TestingProperties.LinesHaveNoNewline | testing.cpp:52 | No line `getline` returns contains a newline |
| TestingProperties.LinesRoundTrip | testing.cpp:52 | Joining the lines with newlines gives back the text, plus a newline when the text did not end with one |
| TestingProperties.ExtractWordOf | testing.cpp:15 | Blanks, then a word, then blank or nothing: `>>` reads exactly that word |
| TestingProperties.ExtractCharOf | testing.cpp:15 | Blanks then a non-blank character: `>> equals` reads that character |
| TestingProperties.ExtractIntOf | testing.cpp:15 | Blanks then the decimal text of any `int` `v`: `>> value` reads `v` |
| TestingProperties.IntTextReads | testing.cpp:15 | `>> int` reads back the text `operator<<(int)` writes for any `int`, up to a following non-digit |
| TestingProperties.ExtractIntNegative | testing.cpp:15 | `-` followed by the digits of `n` (at most 2^31) reads as `-n` |
| TestingProperties.AssignmentStatement | testing.cpp:10-17 | `x = v` binds the word `x` to the `int` `v`, for every `int` value |
| TestingProperties.AssignmentParts | testing.cpp:15 | Any one non-blank separator is accepted in place of `=` |
| TestingProperties.UnspacedAssignmentIsUndefined | testing.cpp:15-16 | A line that is a single word, such as `x=5`, leaves `value` uninitialised |
| TestingProperties.PrintContentBetween | testing.cpp:20-22 | The content is the text strictly between the first `(` and the last `)` |
| TestingProperties.ContentNoParentheses | testing.cpp:20-22 | With no parentheses, `npos + 1` wraps to 0 and the content is the whole line |
| TestingProperties.PrintContentUnclosed | testing.cpp:20-22 | With no `)` after the first `(`, the content is all of the line after that `(` |
| TestingProperties.SubstrPastEnd | testing.cpp:22 | A count reaching past the end takes the rest of the string |
| TestingProperties.PrintStep | testing.cpp:27 | A print writes `text`, a space and the identifier's value, and inserts the identifier |
| TestingProperties.CallFields | testing.cpp:25-26 | For `m, x` the comma is glued to `m`, so `text` is `m` and the identifier is empty |
| TestingProperties.PrintCallIgnoresName | testing.cpp:19-28 | `print(m, x)` prints `m` and the value of the empty name, never that of `x` |
| TestingProperties.SpacedCallFields | testing.cpp:25-26 | For `m , x` the last character of `m` is dropped and `x` is the identifier |
| TestingProperties.SpacedPrintCallReadsName | testing.cpp:19-26 | `print(m , x)` reads the identifier `x` |
| TestingProperties.InterpretEmptyNameZero | testing.cpp:16 | The empty name keeps the value 0 through a run, as no assignment can bind it |
| TestingProperties.PrintCallWritesZero | testing.cpp:27 | So `print(m, x)` writes `m 0` |
| TestingProperties.StepBinds | testing.cpp:16 | One line either binds `x` to its assigned value, or keeps an old value of `x` and gives a newly inserted `x` the value 0 |
| TestingProperties.InterpretBinds | testing.cpp:51-56 | After a run, `x` holds the value of its last assignment. Without one, an old value is kept and a value gained by printing is 0 |
| TestingProperties.InterpretOutput | testing.cpp:51-56 | A run writes exactly one line per processed print line and only appends |
| TestingProperties.LineStepOutput | testing.cpp:30-36 | One processed line appends exactly one output line when it contains `print`, none otherwise, and keeps the earlier lines |
| MPython.WordToken | mpython.cpp:154-155 | A word is PRINT exactly when it is `print`, and ID otherwise, carrying the word |
| MPython.Step | mpython.cpp:98-159 | Every turn of the scanning loop reads at least one character, so the loop ends |
| MPython.StringLexeme | mpython.cpp:131-135 | The `"` case pushes one STRING of the quote-free text after the quote, consuming the closing quote or, without one, the rest of the text |
| MPython.CommentLexeme | mpython.cpp:136-139 | The `#` case pushes one COMMENT of `#` and the newline-free rest of the line, consuming the newline when there is one |
| MPython.NumberLexeme | mpython.cpp:142-147 | A digit pushes one NUM of canonical digits: the digit run and its value when within `int`; otherwise `INT_MAX`, and the failed stream ends the scan |
| MPython.WordLexeme | mpython.cpp:148-157 | A letter pushes the word token of the longest run of letters and digits it starts, and reads exactly that run |
| MPython.Tokenize | mpython.cpp:91-164 | The scanning method produces `Lex(input)`, which ends with END |
| MPython.ReadWord | mpython.cpp:148-157 | The letter case: the alphanumeric run as PRINT or ID |
| MPython.PrintAt | mpython.cpp:177-193 | A PRINT succeeds exactly when `( STRING , ID )` follows. It then builds PrintNode(message, variable) and moves six tokens on. A missing `(` or STRING throws its own message; later pieces are checked as PrintArgumentsAt states |
| MPython.PrintArgumentsAt | mpython.cpp:184-192 | After `print(STRING`, success exactly when `, ID )` follows. A missing `,`, ID or `)` throws its own message, which quotes the message text and, for `)`, the variable |
| MPython.AssignmentAt | mpython.cpp:194-202 | `ID =` succeeds exactly when a NUM in `int` range follows, giving AssignmentNode of its value three tokens on. Otherwise `Expected number after '=name'` is thrown, or a `stoi` throws |
| MPython.IterationAt | mpython.cpp:174-206 | Each turn of the parse loop advances. It builds a node exactly at PRINT or `ID =`, and skips any other token by one |
| MPython.Parse | mpython.cpp:169-211 | The parse loop method computes the program, or the first exception |
| MPython.Execute | mpython.cpp:233-237 | The evaluation loop of `main` runs the nodes in order from an empty context |
| MPythonProperties.StepWellFormed | mpython.cpp:98-159 | Every token a loop turn pushes has its kind's exact text: ID (never `print`), PRINT, canonical NUM within `int`, STRING without quotes, COMMENT starting with `#`, and the symbols |
| MPythonProperties.DigitStepIsNumber | mpython.cpp:142-147 | A digit always takes the number case |
| MPython.LetterStepIsWord | mpython.cpp:148-157 | A letter always takes the word case |
| MPythonProperties.ScanWellFormed | mpython.cpp:98-160 | Every token the loop pushes is well formed |
| MPythonProperties.LexWellFormed | mpython.cpp:161-163 | The tokens end with END, and no earlier token is END. EQUALS, NUMBER and NEWLINE never occur |
| MPythonProperties.LexBlank | mpython.cpp:99-104 | Whitespace, the newline included, pushes nothing |
| MPythonProperties.LexSymbol | mpython.cpp:107-130 | `= + ( ) , ;` each push their one token |
| MPythonProperties.LexDropped | mpython.cpp:141-158 | Any other non-alphanumeric character, such as `-`, is dropped |
| MPythonProperties.IdentifierLexes | mpython.cpp:148-157 | A letter followed by letters and digits is one word token |
| MPythonProperties.DigitRunLexes | mpython.cpp:142-147 | A digit run of value at most INT_MAX is one NUM carrying `std::to_string` of its value |
| MPythonProperties.DigitRunOverflowStops | mpython.cpp:144-146 | A larger digit run gives NUM `2147483647`; the stream fails, so the scan ends there |
| MPythonProperties.LexCanonicalNumber | mpython.cpp:142-147 | Digit text without leading zeros keeps its text as a NUM |
| MPythonProperties.StringLexes | mpython.cpp:131-135 | A quoted string is one STRING token of its contents |
| MPythonProperties.CommentLexes | mpython.cpp:136-139 | `#` pushes one COMMENT of `#` and the rest of the line, consuming the newline |
| MPythonProperties.LexAssignment | mpython.cpp:98-160 | `x = n` scans to ID, ASSIGN, NUM |
| MPythonProperties.LexPrint | mpython.cpp:98-160 | `print("m", x)` scans to PRINT ( STRING , ID ) |
| MPythonProperties.LexAssignThenPrint | mpython.cpp:91-164 | The two-line program `x = n`, `print("m", x)` scans to its ten tokens |
| MPythonProperties.ParseBuildsStatements | mpython.cpp:174-206 | `parse` builds only AssignmentNode and PrintNode |
| MPythonProperties.SkipsRest | mpython.cpp:203-206 | With no PRINT and no `ID =` left, the loop skips token by token up to END and returns the program built so far |
| MPythonProperties.ParseAssignmentStep | mpython.cpp:194-202 | At `ID = NUM` the loop pushes AssignmentNode(name, value) and moves three tokens on |
| MPythonProperties.ParsePrintStep | mpython.cpp:177-193 | At `PRINT ( STRING , ID )` the loop pushes the PrintNode and moves six tokens on |
| MPythonProperties.AssignmentRoundTrip | mpython.cpp:194-202 | `x = n` parses to AssignmentNode(x, n), and running it binds `x` to `n` |
| MPythonProperties.PrintRoundTrip | mpython.cpp:177-193 | `print("m", x)` parses to PrintNode(m, x). Run alone it writes nothing, because `x` is unbound |
| MPythonProperties.RunLonePrint | mpython.cpp:78-84 | A PrintNode run from the empty context finds no variable and writes nothing |
| MPythonProperties.AssignThenPrint | mpython.cpp:169-237 | The text `x = n` then `print("m", x)` parses to the two nodes. Running them binds `x` and writes the one line `x = n` |
| MPythonProperties.RunAssignThenPrint | mpython.cpp:54-84 | Evaluating the assignment then the print binds `x` to `n` and writes `x = n` |
| MPythonProperties.RunBinds | mpython.cpp:54-56 | After a program, `x` holds the value of its last AssignmentNode. Without one it is exactly as before |
| MPythonProperties.RunPrintAfter | mpython.cpp:64-84 | A PrintNode after any program run from the empty context writes `x = v` exactly when the program assigned `x`, with `v` the last value assigned, and writes nothing otherwise; the message is never written |
| MPythonProperties.RunAppendsOutput | mpython.cpp:79-84 | The output file is only appended to, with at most one line per PrintNode |
| MPythonProperties.RunAppend | mpython.cpp:234-237 | Running `p + q` is running `p`, then `q` from where it left off |
| MyPython.Step | mypython.cpp:104-169 | Every turn of the scanning loop reads at least one character |
| MyPython.StringLexeme | mypython.cpp:137-141 | The `"` case pushes one STRING of the quote-free text after the quote, consuming the closing quote or, without one, the rest of the text |
| MyPython.CommentLexeme | mypython.cpp:142-146 | The `#` case pushes one COMMENT of `#` and the newline-free rest of the line, consuming the newline when there is one |
| MyPython.Tokenize | mypython.cpp:97-173 | The scanning method produces `Lex(input)`, which ends with END |
| MyPython.AssignmentAt | mypython.cpp:213-234 | The first stage at an ID builds AssignmentNode exactly when `=` follows, and always moves `it` on |
| MyPython.SumAt | mypython.cpp:222-230 | After the first NUM: `+`/`-` and a NUM make `ExpressionNode(IntegerNode(a), IntegerNode(stoi), op)` two tokens on; `stoi` throws exactly when that NUM does not convert; a `+`/`-` without a NUM leaves `IntegerNode(a)` one token on; anything else leaves `IntegerNode(a)` where it was |
| MyPython.PrintAt | mypython.cpp:236-252 | A PRINT succeeds exactly when `( STRING , ID )` follows, building PrintNode six tokens on. A missing `(` or STRING throws its own message; later pieces are checked as PrintArgumentsAt states |
| MyPython.PrintArgumentsAt | mypython.cpp:244-251 | After `print(STRING`, success exactly when `, ID )` follows. A missing `,`, ID or `)` throws its own message, which quotes the message text and, for `)`, the variable |
| MyPython.LiteralAt | mypython.cpp:253-261 | The second assignment path succeeds exactly when a NUM that `stoi` converts follows `ID =`, building `LiteralAssignmentNode(name, stoi)` three tokens on. A missing NUM throws `Expected number after '=name'`; a NUM out of range makes `stoi` throw |
| MyPython.SecondStageAt | mypython.cpp:236-265 | The second stage moves `it` forward, and skips by one any token that is not PRINT or `ID =` |
| MyPython.IterationAt | mypython.cpp:212-266 | One loop turn advances and pushes at most two nodes |
| MyPython.Parse | mypython.cpp:207-270 | The parse loop method computes the program, or the first exception or fault |
| MyPython.OperandOf | mypython.cpp:187-195 | Reading an operand can fail only by overflow inside it |
| MyPython.Execute | mypython.cpp:292-296 | The evaluation loop of `main` runs the nodes in order from an empty context |
| MyPythonProperties.StepWellFormed | mypython.cpp:104-169 | Every token a loop turn pushes has its kind's exact text |
| MyPythonProperties.ScanWellFormed | mypython.cpp:104-169 | Every token the loop pushes is well formed |
| MyPythonProperties.LexWellFormed | mypython.cpp:147-170 | The tokens end with END. No token is ID, NUM, PRINT or NEWLINE, because the letter and digit code after `break` is unreachable |
| MyPythonProperties.AlnumDropped | mypython.cpp:147-167 | Letters and digits are dropped |
| MyPythonProperties.DroppedRun | mypython.cpp:104-169 | A run of dropped characters contributes no token |
| MyPythonProperties.NamesAndNumbersVanish | mypython.cpp:105-167 | Names, numbers and whitespace (newlines included) all vanish from the tokens |
| MyPythonProperties.CommentToken | mypython.cpp:142-146 | `#` pushes one COMMENT of `#` and the rest of the line, consuming the newline |
| MyPythonProperties.StringToken | mypython.cpp:137-141 | A quoted string is one STRING token of its contents |
| MyPythonProperties.SkipsAll | mypython.cpp:262-265 | With no PRINT and no `ID =` left, every token is skipped and the program is returned |
| MyPythonProperties.SourceParsesToNothing | mypython.cpp:288-296 | Every source text parses to the empty program, which changes nothing |
| MyPythonProperties.AssignmentShape | mypython.cpp:213-234 | The first stage's node is for that variable. Its expression is nullptr exactly when no NUM follows `=`. It is an operation exactly for `NUM +/- NUM`, which takes five tokens |
| MyPythonProperties.AssignmentBeforeEnd | mypython.cpp:212-265 | For `x = n` END, the second stage skips END and the loop ends at the end of the vector with one assignment |
| MyPythonProperties.AssignmentAtEndDerefs | mypython.cpp:236 | For `x = n` without END, the second stage dereferences the end iterator |
| MyPythonProperties.PrintNeedsParen | mypython.cpp:239 | A PRINT not followed by `(` throws `Expected '(' after 'print'` |
| MyPythonProperties.ExpressionOverLeaves | mypython.cpp:184-202 | An operation over literals or names adds or subtracts the values found under `"__expr_result"`, or 0 for a null operand. Overflow is undefined |
| MyPythonProperties.LeafOperand | mypython.cpp:187-195 | A leaf operand yields the value under `"__expr_result"` (0 for nullptr) and only inserts that key |
| MyPythonProperties.FirstStageAssignmentValue | mypython.cpp:55-61 | Assignment from the first stage binds the variable and the key to `r0`, `r0 + r0` or 0, where `r0` is the value the key held. With nullptr it changes nothing |
| MyPythonProperties.PrintIgnoresMessage | mypython.cpp:70-94 | A PrintNode never writes its message. It appends `var = value` only for a bound variable and changes no binding |
| MyPythonProperties.RunAppend | mypython.cpp:293-296 | Running `p + q` is running `p`, then `q` from where it left off, unless `p` overflowed |
| MyPythonProperties.LiteralLastWriteWins | mypython.cpp:259 | Of two literal assignments to one variable, the later wins |
| PythonTest1.Step | pythontest1.cpp:207-283 | Every turn of the scanning loop reads at least one character |
| PythonTest1.StringLexeme | pythontest1.cpp:239-242 | The `"` case pushes one STRING of the quote-free text after the quote, consuming the closing quote or, without one, the rest of the text |
| PythonTest1.CommentLexeme | pythontest1.cpp:243-246 | The `#` case pushes nothing and reads through the first newline, or to the end of the text |
| PythonTest1.NumberLexeme | pythontest1.cpp:268-272 | A digit pushes one NUM of canonical digits: the digit run and its value when within `int`; otherwise `INT_MAX`, and the failed stream ends the scan |
| PythonTest1.WordLexeme | pythontest1.cpp:273-280 | A letter pushes one ID of the longest run of letters and digits it starts, and reads exactly that run |
| PythonTest1.Tokenize | pythontest1.cpp:201-287 | The scanning method produces `Lex(input)`, which ends with END |
| PythonTest1.LetterStepIsWord | pythontest1.cpp:273-279 | A letter other than `i` and `e` always takes the identifier case |
| PythonTest1.ReadWord | pythontest1.cpp:273-280 | The letter case: the alphanumeric run as an ID |
| PythonTest1.OperandAt | pythontest1.cpp:294-312 | An operand token gives `IntegerNode(stoi(value))` for NUM and `VariableNode(value)` for ID, and nullptr otherwise. It fails exactly when `stoi` throws |
| PythonTest1.OperatorLoop | pythontest1.cpp:303-321 | The operator loop never moves `it` back or past the end |
| PythonTest1.ExpressionAt | pythontest1.cpp:290-324 | `parseExpression` never moves `it` back or past the end |
| PythonTest1.AssignmentAt | pythontest1.cpp:357-364 | At an ID, an AssignmentNode exactly when ASSIGN follows: it names the ID's variable, holds the expression `parseExpression` builds two tokens on, and leaves `it` where that expression ends. Without ASSIGN, nullptr one token on. It fails exactly when that expression does |
| PythonTest1.StatementAt | pythontest1.cpp:326-340 | `parseStatement` moves `it` only at an ID. Every other token gives nullptr where it stands |
| PythonTest1.BraceLoop | pythontest1.cpp:372-375 | A brace loop that ends has advanced to just past a `}`, and keeps the statements collected before it as a prefix |
| PythonTest1.BranchAt | pythontest1.cpp:370-376 | A branch (also the one after ELSE, pythontest1.cpp:380-386) never moves `it` back or past the end; at the end of the tokens `it->type` faults, and without LEFT_BRACE it is empty in place |
| PythonTest1.IfElseAt | pythontest1.cpp:365-389 | The IF case builds an IfElseNode whose condition is the expression after IF and whose true branch is the branch read where that expression ends, and advances. It fails exactly as that expression or branch fails, and otherwise finishes as ElseAt at the true branch's end |
| PythonTest1.ElseAt | pythontest1.cpp:378-389 | The ELSE part keeps the condition and true branch. After ELSE the false branch is the branch read one token on, and it fails exactly when that branch does; without ELSE the false branch is empty and `it` stays put |
| PythonTest1.PrintAt | pythontest1.cpp:390-409 | The PRINT case builds `PrintNode(message, variable)` exactly when `PRINT ( STRING , ID )` is there, moving six tokens on |
| PythonTest1.ParseOperations | pythontest1.cpp:303-321 | The `while` loop of `parseExpression` builds OperatorLoop's tree and leaves `it` where OperatorLoop does, or stops with its fault. The tree's shape is stated by OperatorLoopShape and OperatorLoopExtent |
| PythonTest1.ParseExpression | pythontest1.cpp:290-324 | `parseExpression` with its optional leading operand and its `while` loop, run by ParseOperations, equals ExpressionAt |
| PythonTest1.ParseIfElse | pythontest1.cpp:365-389 | The IF case, run with ParseExpression and ParseBranch, equals IfElseAt |
| PythonTest1.ParseBranch | pythontest1.cpp:370-386 | The brace loop as a method, equal to BranchAt. A statement that does not advance is the non-termination fault |
| PythonTest1.Parse | pythontest1.cpp:342-417 | `parse` as a method. It returns the program, the empty program after a syntax error, or the fault |
| PythonTest1.EvalOperands | pythontest1.cpp:129-133 | Reading both operands only appends output and leaves the right operand's value under `"__expr_result"` |
| PythonTest1.Eval | pythontest1.cpp:101-199 | No `evaluate` ever removes output |
| PythonTest1.EvalBranch | pythontest1.cpp:147-151 | The first `k` iterations of a branch loop only append output |
| PythonTest1.EvaluateIfElse | pythontest1.cpp:145-152 | IfElseNode as a method with its `for` loops, equal to Eval |
| PythonTest1.Run | pythontest1.cpp:441-443 | Running a program only appends output |
| PythonTest1.Execute | pythontest1.cpp:440-443 | The evaluation loop of `main` runs the nodes in order from an empty context |
| PythonTest1Properties.StepWellFormed | pythontest1.cpp:209-282 | Every token a loop turn pushes has its kind's exact text. An ID never starts with `i` or `e`. PRINT, LEFT_BRACE, RIGHT_BRACE and COMMENT never occur |
| PythonTest1Properties.ScanWellFormed | pythontest1.cpp:207-283 | Every token the loop pushes is well formed |
| PythonTest1Properties.LexWellFormed | pythontest1.cpp:285 | The tokens end with END and are all well formed |
| PythonTest1Properties.LexColonEnd | pythontest1.cpp:263-266 | Before the final END, a token is END exactly when it follows a COLON `:` |
| PythonTest1Properties.StepNewlines | pythontest1.cpp:209-214 | One loop turn pushes at most as many NEWLINEs as newlines it reads, and equally many on plain text |
| PythonTest1Properties.LexNewlines | pythontest1.cpp:209-214 | NEWLINE tokens never outnumber newlines. On text with no keyword letter, comment, string or digit, each newline gives exactly one |
| PythonTest1Properties.CommentDiscardsLine | pythontest1.cpp:243-246 | `#` discards the rest of its line and the newline, and pushes nothing |
| PythonTest1Properties.CommentAtEnd | pythontest1.cpp:243-246 | A comment on the last line leaves only END |
| PythonTest1Properties.IfConsumesOne | pythontest1.cpp:253-256 | `i` pushes IF and swallows exactly the next character, whatever it is |
| PythonTest1Properties.ElseConsumesThree | pythontest1.cpp:257-262 | `e` pushes ELSE and swallows exactly the next three characters |
| PythonTest1Properties.DigitRunLexes | pythontest1.cpp:268-272 | A digit run of value at most INT_MAX is one NUM carrying `std::to_string` of its value |
| PythonTest1Properties.DigitRunOverflowStops | pythontest1.cpp:269-272 | A larger digit run gives NUM `2147483647`; the stream fails, so the scan ends there |
| PythonTest1Properties.IdentifierLexes | pythontest1.cpp:273-280 | A letter other than `i` and `e`, then letters and digits, is one ID |
| PythonTest1Properties.LexBlank | pythontest1.cpp:209-214 | A newline pushes NEWLINE; other whitespace pushes nothing |
| PythonTest1Properties.LexSymbol | pythontest1.cpp:217-266 | Each fixed-token character pushes its tokens |
| PythonTest1Properties.LexDropped | pythontest1.cpp:217-282 | A character with no `case` that is neither a letter nor a digit is read and pushes nothing |
| PythonTest1Properties.BracesDropped | pythontest1.cpp:217-282 | `{` and `}` have no `case`, so they push nothing and LEFT_BRACE and RIGHT_BRACE never reach the parser |
| PythonTest1Properties.OperatorLoopShape | pythontest1.cpp:303-321 | The operator loop keeps the tree left-nested with leaf right operands |
| PythonTest1Properties.ExpressionShape | pythontest1.cpp:290-324 | `parseExpression` builds a left fold over `+ - > <` with no precedence. Every right operand is a single NUM, ID or nullptr |
| PythonTest1Properties.OperatorLoopExtent | pythontest1.cpp:303-321 | The operator loop takes operator and operand tokens in strict alternation, one token per operand whatever it is. It stops at the first non-operator |
| PythonTest1Properties.ExpressionExtent | pythontest1.cpp:290-324 | `parseExpression` takes an optional leading NUM or ID, then that alternation |
| PythonTest1Properties.SyntaxErrorAt | pythontest1.cpp:410-413 | A syntax error occurs only at a token that is not ID, IF, PRINT, NEWLINE or END |
| PythonTest1Properties.ParseLoopAccumulates | pythontest1.cpp:346-416 | Statements parsed earlier only prefix the final program. A later syntax error discards them |
| PythonTest1Properties.SyntaxErrorIsEmpty | pythontest1.cpp:410-413 | After a syntax error `parse` returns the empty program |
| PythonTest1Properties.AssignmentRoundTrip | pythontest1.cpp:357-364 | `x = n` parses to one AssignmentNode of IntegerNode `n`, and running it binds `x` and `"__expr_result"` to `n` |
| PythonTest1Properties.LiteralAssignmentRuns | pythontest1.cpp:162-165 | Running `x = n` from an empty context binds `x` and `"__expr_result"` to `n` |
| PythonTest1Properties.PrintStatementDiscardsProgram | pythontest1.cpp:410-413 | `print` scans as an ID, so `x = n` followed by a print line is a syntax error at `(`. The program parses to nothing |
| PythonTest1Properties.AssignmentThenPrintCall | pythontest1.cpp:357-413 | The tokens `x = n` NEWLINE `print (` end at a syntax error at the LEFT_PAREN |
| PythonTest1Properties.ExpressionSemantics | pythontest1.cpp:105-187 | An expression tree changes only `"__expr_result"` and no output. It is defined exactly when Value is, and leaves Value there. Value is an independent definition: `+`/`-` within `int`, comparisons 1 or 0, an unbound variable keeping the previous value |
| PythonTest1Properties.BinarySemantics | pythontest1.cpp:129-187 | The same for ExpressionNode and ComparisonNode: left, then right, then the sum, difference, or 1/0 of the comparison |
| PythonTest1Properties.OperandsSemantics | pythontest1.cpp:130-133 | Both operands are evaluated left to right through `"__expr_result"`, matching Value |
| PythonTest1Properties.AssignmentSemantics | pythontest1.cpp:162-165 | An assignment binds its variable and `"__expr_result"` to the expression's value and changes nothing else. It is undefined exactly when the value is |
| PythonTest1Properties.EvalBranchIsRunBlock | pythontest1.cpp:148-150 | The branch loop runs the branch's statements in order, stopping at the first undefined step |
| PythonTest1Properties.IfElseRunsOneBranch | pythontest1.cpp:145-152 | An if-else runs exactly one branch in the same context: the true branch when the condition's value is nonzero. A null or undefined condition is undefined |
| PythonTest1Properties.RunAppend | pythontest1.cpp:441-443 | Running `p + q` is running `p`, then `q` from where it left off, unless `p` crashed |
| PythonTest1Properties.RunPrintAfter | pythontest1.cpp:196-198 | A PrintNode run after a program writes one line, the message, a space, then the variable's value or `undefined`, and changes no variable |
| PythonTest1Properties.LeftNestedIsExpression | pythontest1.cpp:290-324 | Every tree `parseExpression` can build is one of the expression trees that ExpressionSemantics describes |
| PythonTest1Properties.ParsedAssignmentIsExpression | pythontest1.cpp:357-364 | The assignment path builds an AssignmentNode whose expression is such a tree |
| PythonTest1Properties.BraceLoopIsBlock | pythontest1.cpp:372-375 | A brace loop collects only nullptr and assignments of expression trees |
| PythonTest1Properties.BranchIsBlock | pythontest1.cpp:370-376 | So does a branch, with or without braces |
| PythonTest1Properties.ElseIsStatement | pythontest1.cpp:378-389 | The ELSE part completes an IfElseNode whose condition is an expression tree and whose branches are blocks |
| PythonTest1Properties.ParsedIfElseIsStatement | pythontest1.cpp:365-389 | The IF case builds such an IfElseNode, in the shape IfElseRunsOneBranch takes |
| PythonTest1Properties.ParseLoopIsStatements | pythontest1.cpp:346-416 | Every node the loop of `parse` pushes is an assignment of an expression tree, such an if-else, or a print |
| PythonTest1Properties.ParsedProgramIsStatements | pythontest1.cpp:342-417 | So every node of a parsed program is one that AssignmentSemantics, IfElseRunsOneBranch or RunPrintAfter describes |

## Left out

- `main` in every variant: the argument checks, opening and reading the input file, and the final dump of the context. The file's text is a parameter of the model.
- The order of that final dump, which `std::unordered_map` leaves unspecified.
- The debug tracing to `std::cout` and `std::cerr`. This covers `printTokenType`, the "Token type:" lines, the "Added token", "Found PRINT", "Skipping token" and "Evaluating node" lines, and the syntax-error message of pythontest1.cpp, which is shown only as the empty program.
- PrintNode's file handling in mpython.cpp and mypython.cpp. Opening `out01.txt`, the failure to open it, and `std::filesystem::current_path` are not modelled. A written line is appended to an output sequence and a missing variable writes nothing.
- cpp_grammar.cpp is not part of this model. It is a grammar built on pyparsing, whose semantics are not visible here.
- Characters outside ASCII and any locale other than "C".
- mypython.cpp:259 calls `AssignmentNode(varName, int)`, which matches no constructor of that class (mypython.cpp:52-53). The model reads it as a literal binding, as mpython.cpp:53-56 does: the node `LiteralAssignmentNode`.
- pythontest1.cpp's brace loops never end when `parseStatement` does not advance. They are modelled as the `Diverges` fault, not as non-termination.
- Undefined behaviour is modelled as one explicit fault per kind. No consequence after the fault is modelled. The kinds are:
  - a null child called;
  - the end iterator dereferenced or advanced;
  - `+`/`-` overflowing `int`;
  - `pop_back` on an empty string;
  - an uninitialised `value` read.
- PythonTest1Properties.LexNewlines: on arbitrary text the count of NEWLINE tokens is stated only as at most the number of newlines. `i`, `e`, a comment, a string or an overflowing number can swallow newlines. Equality is stated for text without those characters.
- TestingProperties.PrintContentBetween: stated for lines shorter than 2^64 characters, where `size_t` arithmetic cannot wrap around the line length.
- MyPythonProperties.FirstStageAssignmentValue: requires the value under `"__expr_result"` to be within `int`. The context maps to C++ `int`, so every stored value is.
- MPython.Step: states only progress. What the loop turn pushes is stated by StepWellFormed and the Lex lemmas beside it.
- PythonTest1.Eval: states only that output grows. What each node computes is stated by ExpressionSemantics, AssignmentSemantics, IfElseRunsOneBranch and RunPrintAfter. ParsedProgramIsStatements says that every parsed node has the shape one of them requires.
