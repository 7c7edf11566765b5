/**
  mpython.cpp: a character scanner that reads numbers and identifiers, a
  parser that recognises only `print(STRING, ID)` and `ID = NUM`, and an AST
  of assignments of literal values and prints into the output file.

  The iterator `it` of `parse` is an index into the token sequence. The
  context passed by reference to `evaluate` is threaded in and out, together
  with the lines appended to the output file.
*/
module MPython {
  import opened Wrappers
  import opened CppStd

  // =====================================================================
  // Tokens
  // =====================================================================

  datatype Kind =
    | Id | Num | Assign | Print | String | Semicolon | End | Comment | Plus
    | LeftParen | RightParen | Equals | Number | Comma | Newline

  datatype Token = Token(kind: Kind, value: string)

  const EndToken: Token := Token(End, "")

  // =====================================================================
  // tokenize
  // =====================================================================

  /** What one turn of the `tokenize` loop emits, and how many characters it reads. */
  datatype Lexeme = Lexeme(tokens: seq<Token>, used: nat)

  /** The `switch` cases that push one fixed token and read nothing after `ch`. */
  function SymbolToken(c: char): Option<Token> {
    if c == '=' then Some(Token(Assign, "="))
    else if c == '+' then Some(Token(Plus, "+"))
    else if c == '(' then Some(Token(LeftParen, "("))
    else if c == ')' then Some(Token(RightParen, ")"))
    else if c == ',' then Some(Token(Comma, ","))
    else if c == ';' then Some(Token(Semicolon, ";"))
    else None
  }

  /** An identifier is PRINT when it is exactly `print`. */
  function WordToken(w: string): (tok: Token)
    ensures tok.value == w && (tok.kind == Print <==> w == "print") && tok.kind in {Id, Print}
  {
    Token(if w == "print" then Print else Id, w)
  }

  /**
    One turn of the `tokenize` loop on the unread text `s`. A digit run too
    large for `int` makes `iss >> num` store INT_MAX and fail the stream, so
    the rest of the text counts as read. Every character without a `case`
    that is neither a digit nor a letter (`-` among them) is read and dropped.
  */
  function Step(s: string): (x: Lexeme)
    requires s != []
    ensures 0 < x.used <= |s|
  {
    var c := s[0];
    if IsSpace(c) then Lexeme([], 1)
    else if SymbolToken(c).Some? then Lexeme([SymbolToken(c).value], 1)
    else if c == '"' then StringLexeme(s)
    else if c == '#' then CommentLexeme(s)
    else if IsDigit(c) then NumberLexeme(s)
    else if IsAlpha(c) then WordLexeme(s)
    else Lexeme([], 1)
  }

  /** The `'"'` case: `getline(iss, str, '"')`, the text up to the closing quote. */
  function StringLexeme(s: string): (x: Lexeme)
    requires s != []
    ensures 0 < x.used <= |s|
    ensures |x.tokens| == 1 && x.tokens[0].kind == String
    ensures var str := x.tokens[0].value;
      ((x.used == |str| + 2 && s[x.used - 1] == '"') || x.used == |str| + 1 == |s|) &&
      '"' !in str && s[1..1 + |str|] == str
  {
    var (str, n) := Getline(s[1..], '"');
    Lexeme([Token(String, str)], 1 + n)
  }

  /** The `'#'` case: `getline(iss, comment)`, one COMMENT token with the `#` put back in front. */
  function CommentLexeme(s: string): (x: Lexeme)
    requires s != []
    ensures 0 < x.used <= |s|
    ensures |x.tokens| == 1 && x.tokens[0].kind == Comment
    ensures var c := x.tokens[0].value;
      ((x.used == |c| + 1 && s[x.used - 1] == '\n') || x.used == |c| == |s|) &&
      1 <= |c| && c == "#" + s[1..|c|] && '\n' !in c[1..]
  {
    var (comment, n) := Getline(s[1..], '\n');
    Lexeme([Token(Comment, "#" + comment)], 1 + n)
  }

  /** A digit: `putback` and `iss >> num`, which stores INT_MAX and fails the stream on overflow. */
  function NumberLexeme(s: string): (x: Lexeme)
    requires s != [] && IsDigit(s[0])
    ensures 0 < x.used <= |s|
    ensures |x.tokens| == 1 && x.tokens[0].kind == Num && Canonical(x.tokens[0].value)
    ensures var v := DecimalValue(s[..DigitRun(s)]);
      if v <= INT_MAX then x.used == DigitRun(s) && DecimalValue(x.tokens[0].value) == v
      else x.used == |s| && DecimalValue(x.tokens[0].value) == INT_MAX
  {
    var n := DigitRun(s);
    var v := DecimalValue(s[..n]);
    NatToStringDecimal(v);
    NatToStringCanonical(v);
    IntMaxTextIsToString();
    if v <= INT_MAX then Lexeme([Token(Num, NatToString(v))], n)
    else Lexeme([Token(Num, IntMaxText)], |s|)
  }

  /** A letter: the longest run of letters and digits after it is one word. */
  function WordLexeme(s: string): (x: Lexeme)
    requires s != []
    ensures 0 < x.used <= |s|
    ensures x.tokens == [WordToken(s[..x.used])]
    ensures forall k :: 1 <= k < x.used ==> IsAlnum(s[k])
    ensures x.used == |s| || !IsAlnum(s[x.used])
  {
    var n := 1 + AlnumRun(s[1..]);
    Lexeme([WordToken(s[..n])], n)
  }

  /** The tokens the loop of `tokenize` pushes for the text `s`. */
  function Scan(s: string): seq<Token>
    decreases |s|
  {
    if s == [] then [] else var x := Step(s); x.tokens + Scan(s[x.used..])
  }

  /** The vector `tokenize` returns. */
  function Lex(s: string): seq<Token> {
    Scan(s) + [EndToken]
  }

  /** One turn of the loop at `i` that emits `emitted` and moves to `next` leaves the rest of the scan from `next`. */
  lemma ScanAt(s: string, i: nat, emitted: seq<Token>, next: nat)
    requires i < |s| && emitted == Step(s[i..]).tokens && next == i + Step(s[i..]).used
    ensures next <= |s| && Scan(s[i..]) == emitted + Scan(s[next..])
  {
    assert s[i..][next - i..] == s[next..];
  }

  /** A letter is the word case of the `tokenize` loop. */
  lemma LetterStepIsWord(s: string)
    requires s != [] && IsAlpha(s[0])
    ensures Step(s) == WordLexeme(s)
  {
    var c := s[0];
    assert !IsSpace(c) && SymbolToken(c).None? && !IsDigit(c);
  }

  method Tokenize(input: string) returns (tokens: seq<Token>)
    ensures tokens == Lex(input)
    ensures |tokens| > 0 && tokens[|tokens| - 1] == EndToken
  {
    tokens := [];
    var i := 0;
    while i < |input|
      invariant i <= |input|
      invariant tokens + Scan(input[i..]) == Scan(input)
    {
      var emitted: seq<Token>, next: nat;
      if IsAlpha(input[i]) {
        LetterStepIsWord(input[i..]);
        emitted, next := ReadWord(input, i);
      } else {
        var x := Step(input[i..]);
        emitted, next := x.tokens, i + x.used;
      }
      ScanAt(input, i, emitted, next);
      Advance(tokens, emitted, Scan(input[i..]), Scan(input[next..]), Scan(input));
      tokens := tokens + emitted;
      i := next;
    }
    tokens := tokens + [EndToken];
  }

  /** The tokens pushed so far, then one turn's, then the rest. */
  lemma Advance(tokens: seq<Token>, emitted: seq<Token>, here: seq<Token>, rest: seq<Token>, all: seq<Token>)
    requires tokens + here == all && here == emitted + rest
    ensures (tokens + emitted) + rest == all
  {
  }

  /** The letter case of the `tokenize` loop: letters and digits appended while `isalnum(iss.peek())`. */
  method ReadWord(input: string, i: nat) returns (emitted: seq<Token>, next: nat)
    requires i < |input|
    ensures emitted == WordLexeme(input[i..]).tokens
    ensures next == i + WordLexeme(input[i..]).used
  {
    var identifier := [input[i]];
    next := i + 1;
    while next < |input| && IsAlnum(input[next])
      invariant i + 1 <= next <= |input|
      invariant identifier == input[i..next]
      invariant forall k :: i < k < next ==> IsAlnum(input[k])
      decreases |input| - next
    {
      identifier := identifier + [input[next]];
      next := next + 1;
    }
    assert 1 + AlnumRun(input[i + 1..]) == next - i by {
      var s := input[i + 1..];
      assert forall k :: 0 <= k < next - i - 1 ==> IsAlnum(s[k]);
    }
    assert input[i..][1..] == input[i + 1..];
    assert input[i..][..next - i] == identifier;
    emitted := [WordToken(identifier)];
  }

  // =====================================================================
  // AST
  // =====================================================================

  /**
    The AST node classes. `parse` builds only AssignmentNode and PrintNode;
    IntegerNode and VariableNode are declared with an `evaluate` that does
    nothing.
  */
  datatype Node =
    | IntegerNode(value: int)
    | VariableNode(name: string)
    | AssignmentNode(variable: string, number: int)
    | PrintNode(message: string, printed: string)

  // =====================================================================
  // parse
  // =====================================================================

  /** Why `parse` does not return: a `std::runtime_error` it throws, or a `std::stoi` that throws. */
  datatype Failure = RuntimeError(what: string) | StoiThrows(pos: nat)

  datatype Result<T> = Ok(value: T) | Fail(failure: Failure)

  /** The PRINT branch of `parse`: exactly `PRINT ( STRING , ID )`, or the error it throws. */
  function PrintAt(t: seq<Token>, i: nat): (r: Result<(Node, nat)>)
    requires i < |t| && t[i].kind == Print
    ensures r.Ok? <==> i + 5 < |t| && t[i + 1].kind == LeftParen && t[i + 2].kind == String &&
                       t[i + 3].kind == Comma && t[i + 4].kind == Id && t[i + 5].kind == RightParen
    ensures r.Ok? ==> r.value == (PrintNode(t[i + 2].value, t[i + 4].value), i + 6)
    ensures r.Fail? ==> r.failure.RuntimeError?
    ensures i + 1 == |t| || t[i + 1].kind != LeftParen ==> r == Fail(RuntimeError("Expected '(' after 'print'"))
    ensures i + 1 < |t| && t[i + 1].kind == LeftParen && (i + 2 == |t| || t[i + 2].kind != String) ==>
      r == Fail(RuntimeError("Expected string after 'print('"))
    ensures i + 2 < |t| && t[i + 1].kind == LeftParen && t[i + 2].kind == String ==>
      r == PrintArgumentsAt(t, i, t[i + 2].value)
  {
    if i + 1 == |t| || t[i + 1].kind != LeftParen then Fail(RuntimeError("Expected '(' after 'print'"))
    else if i + 2 == |t| || t[i + 2].kind != String then Fail(RuntimeError("Expected string after 'print('"))
    else PrintArgumentsAt(t, i, t[i + 2].value)
  }

  /** The rest of the PRINT branch once `print(` and the STRING `message` at `i + 2` are read. */
  function PrintArgumentsAt(t: seq<Token>, i: nat, message: string): (r: Result<(Node, nat)>)
    requires i + 2 < |t|
    ensures r.Ok? <==> i + 5 < |t| && t[i + 3].kind == Comma && t[i + 4].kind == Id && t[i + 5].kind == RightParen
    ensures r.Ok? ==> r.value == (PrintNode(message, t[i + 4].value), i + 6)
    ensures r.Fail? ==> r.failure.RuntimeError?
    ensures i + 3 == |t| || t[i + 3].kind != Comma ==>
      r == Fail(RuntimeError("Expected ',' after 'print(\"" + message + "\"'"))
    ensures i + 3 < |t| && t[i + 3].kind == Comma && (i + 4 == |t| || t[i + 4].kind != Id) ==>
      r == Fail(RuntimeError("Expected identifier after 'print(\"" + message + "\", '"))
    ensures i + 4 < |t| && t[i + 3].kind == Comma && t[i + 4].kind == Id && (i + 5 == |t| || t[i + 5].kind != RightParen) ==>
      r == Fail(RuntimeError("Expected ')' after 'print(\"" + message + "\", " + t[i + 4].value + "')"))
  {
    if i + 3 == |t| || t[i + 3].kind != Comma then
      Fail(RuntimeError("Expected ',' after 'print(\"" + message + "\"'"))
    else if i + 4 == |t| || t[i + 4].kind != Id then
      Fail(RuntimeError("Expected identifier after 'print(\"" + message + "\", '"))
    else
      var variable := t[i + 4].value;
      if i + 5 == |t| || t[i + 5].kind != RightParen then
        Fail(RuntimeError("Expected ')' after 'print(\"" + message + "\", " + variable + "')"))
      else Ok((PrintNode(message, variable), i + 6))
  }

  /** The assignment branch of `parse`, at `ID ASSIGN`: NUM must follow, and `std::stoi` must accept it. */
  function AssignmentAt(t: seq<Token>, i: nat): (r: Result<(Node, nat)>)
    requires i + 1 < |t| && t[i].kind == Id && t[i + 1].kind == Assign
    ensures r.Ok? <==> i + 2 < |t| && t[i + 2].kind == Num && Stoi(t[i + 2].value).Some?
    ensures r.Ok? ==> r.value == (AssignmentNode(t[i].value, Stoi(t[i + 2].value).value), i + 3)
    ensures r.Fail? && (i + 2 == |t| || t[i + 2].kind != Num) ==>
      r.failure == RuntimeError("Expected number after '=" + t[i].value + "'")
    ensures r.Fail? && i + 2 < |t| && t[i + 2].kind == Num ==> r.failure == StoiThrows(i + 2)
  {
    var name := t[i].value;
    if i + 2 == |t| || t[i + 2].kind != Num then Fail(RuntimeError("Expected number after '=" + name + "'"))
    else
      match Stoi(t[i + 2].value)
      case None => Fail(StoiThrows(i + 2))
      case Some(v) => Ok((AssignmentNode(name, v), i + 3))
  }

  /** Whether the token at `i` starts an assignment: ID with ASSIGN right after it. */
  predicate AssignmentStart(t: seq<Token>, i: nat)
    requires i < |t|
  {
    t[i].kind == Id && i + 1 < |t| && t[i + 1].kind == Assign
  }

  /** One iteration of the loop of `parse` at `i`: the node pushed, if any, and where `it` is left. */
  function IterationAt(t: seq<Token>, i: nat): (r: Result<(Option<Node>, nat)>)
    requires i < |t|
    ensures r.Ok? ==> i < r.value.1 <= |t|
    ensures r.Ok? ==> (r.value.0.None? <==> t[i].kind != Print && !AssignmentStart(t, i))
    ensures r.Ok? && r.value.0.Some? ==>
      (r.value.0.value.PrintNode? <==> t[i].kind == Print) && (r.value.0.value.AssignmentNode? <==> t[i].kind != Print)
    ensures t[i].kind != Print && !AssignmentStart(t, i) ==> r.Ok? && r.value.1 == i + 1
  {
    if t[i].kind == Print then
      match PrintAt(t, i)
      case Fail(f) => Fail(f)
      case Ok((n, k)) => Ok((Some(n), k))
    else if AssignmentStart(t, i) then
      match AssignmentAt(t, i)
      case Fail(f) => Fail(f)
      case Ok((n, k)) => Ok((Some(n), k))
    else Ok((None, i + 1))
  }

  /** The nodes one node or none contributes to `program`. */
  function Pushed(n: Option<Node>): seq<Node> {
    if n.Some? then [n.value] else []
  }

  /** The loop of `parse` from `i`, with the nodes `program` pushed so far. */
  function ParseLoop(t: seq<Token>, i: nat, program: seq<Node>): Result<seq<Node>>
    requires i <= |t|
    decreases |t| - i
  {
    if i == |t| || t[i].kind == End then Ok(program)
    else
      match IterationAt(t, i)
      case Fail(f) => Fail(f)
      case Ok((n, k)) => ParseLoop(t, k, program + Pushed(n))
  }

  function ParseProgram(t: seq<Token>): Result<seq<Node>> {
    ParseLoop(t, 0, [])
  }

  /** One iteration of the loop of `parse` at `i`: its exception, or the rest of the loop after it. */
  lemma ParseLoopStep(t: seq<Token>, i: nat, program: seq<Node>)
    requires i < |t| && t[i].kind != End
    ensures IterationAt(t, i).Fail? ==> ParseLoop(t, i, program) == Fail(IterationAt(t, i).failure)
    ensures IterationAt(t, i).Ok? ==>
      ParseLoop(t, i, program) == ParseLoop(t, IterationAt(t, i).value.1, program + Pushed(IterationAt(t, i).value.0))
  {
  }

  method Parse(tokens: seq<Token>) returns (r: Result<seq<Node>>)
    ensures r == ParseProgram(tokens)
  {
    var program: seq<Node> := [];
    var it := 0;
    while it < |tokens| && tokens[it].kind != End
      invariant it <= |tokens|
      invariant ParseLoop(tokens, it, program) == ParseProgram(tokens)
      decreases |tokens| - it
    {
      ghost var start, program0 := it, program;
      ParseLoopStep(tokens, it, program);
      if tokens[it].kind == Print {
        var p := PrintAt(tokens, it);
        if p.Fail? {
          assert IterationAt(tokens, start) == Fail(p.failure);
          return Fail(p.failure);
        }
        assert IterationAt(tokens, start) == Ok((Some(p.value.0), p.value.1));
        program := program + [p.value.0];
        it := p.value.1;
      } else if tokens[it].kind == Id && it + 1 < |tokens| && tokens[it + 1].kind == Assign {
        var varName := tokens[it].value;
        it := it + 2;
        if it == |tokens| || tokens[it].kind != Num {
          assert IterationAt(tokens, start) == Fail(RuntimeError("Expected number after '=" + varName + "'"));
          return Fail(RuntimeError("Expected number after '=" + varName + "'"));
        }
        var value := Stoi(tokens[it].value);
        if value.None? {
          assert IterationAt(tokens, start) == Fail(StoiThrows(it));
          return Fail(StoiThrows(it));
        }
        program := program + [AssignmentNode(varName, value.value)];
        it := it + 1;
        assert IterationAt(tokens, start) == Ok((Some(AssignmentNode(varName, value.value)), it));
      } else {
        assert program + [] == program;
        it := it + 1;
      }
    }
    r := Ok(program);
  }

  // =====================================================================
  // evaluate
  // =====================================================================

  /** The `context` map and the lines appended to the output file. */
  datatype State = State(vars: map<string, int>, out: seq<string>)

  /** The line PrintNode writes for variable `x` holding `v`. */
  function PrintLine(x: string, v: int): string {
    x + " = " + IntToString(v)
  }

  /** `evaluate` of each node class on the context and output of `st`. */
  function Eval(n: Node, st: State): (r: State)
  {
    match n
    case IntegerNode(_) => st
    case VariableNode(_) => st
    case AssignmentNode(x, v) => st.(vars := st.vars[x := v])
    case PrintNode(_, x) => if x in st.vars then st.(out := st.out + [PrintLine(x, st.vars[x])]) else st
  }

  /** The nodes of `program` evaluated in order. */
  function Run(program: seq<Node>, st: State): (r: State)
    decreases |program|
  {
    if program == [] then st else Eval(program[|program| - 1], Run(program[..|program| - 1], st))
  }

  /** The evaluation loop of `main`, from an empty context and no output. */
  method Execute(program: seq<Node>) returns (r: State)
    ensures r == Run(program, State(map[], []))
  {
    r := State(map[], []);
    for k := 0 to |program|
      invariant r == Run(program[..k], State(map[], []))
    {
      assert program[..k + 1][..k] == program[..k];
      r := Eval(program[k], r);
    }
    assert program[..|program|] == program;
  }
}
