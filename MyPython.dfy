/**
  mypython.cpp: a character scanner whose letter and digit code is
  unreachable, a parser with a two-stage assignment path and a strict
  `print(STRING, ID)` pattern that throws, and an AST whose `evaluate`
  methods share the context key "__expr_result".

  The iterator `it` of `parse` is an index into the token sequence. The
  context passed by reference to `evaluate` is threaded in and out, together
  with the lines appended to the output file.

  mypython.cpp repeats mpython.cpp's string and comment cases and its
  `print(STRING, ID)` branch word for word, so StringLexeme, CommentLexeme,
  PrintAt and PrintArgumentsAt here repeat their MPython counterparts.
*/
module MyPython {
  import opened Wrappers
  import opened CppStd

  // =====================================================================
  // Tokens
  // =====================================================================

  datatype Kind =
    | Id | Num | Assign | Print | String | Semicolon | End | Comment | Plus
    | LeftParen | RightParen | Equals | Number | Comma | Newline | Minus

  datatype Token = Token(kind: Kind, value: string)

  const EndToken: Token := Token(End, "")

  // =====================================================================
  // tokenize
  // =====================================================================

  /** What one turn of the `tokenize` loop emits, and how many characters it reads. */
  datatype Lexeme = Lexeme(tokens: seq<Token>, used: nat)

  /** The `switch` cases that push one fixed token and read nothing after `ch`. */
  function SymbolToken(c: char): Option<Token> {
    if c == '=' then Some(Token(Assign, "="))
    else if c == '+' then Some(Token(Plus, "+"))
    else if c == '(' then Some(Token(LeftParen, "("))
    else if c == ')' then Some(Token(RightParen, ")"))
    else if c == ',' then Some(Token(Comma, ","))
    else if c == ';' then Some(Token(Semicolon, ";"))
    else if c == '-' then Some(Token(Minus, "-"))
    else None
  }

  /**
    One turn of the `tokenize` loop on the unread text `s`. The `case '-'`
    ends in `break` before the digit and letter code, and the `switch` has
    no `default`, so every character without a case is read and dropped.
  */
  function Step(s: string): (x: Lexeme)
    requires s != []
    ensures 0 < x.used <= |s|
  {
    var c := s[0];
    if IsSpace(c) then Lexeme([], 1)
    else if SymbolToken(c).Some? then Lexeme([SymbolToken(c).value], 1)
    else if c == '"' then StringLexeme(s)
    else if c == '#' then CommentLexeme(s)
    else Lexeme([], 1)
  }

  /** The `'"'` case: `getline(iss, str, '"')`, the text up to the closing quote. */
  function StringLexeme(s: string): (x: Lexeme)
    requires s != []
    ensures 0 < x.used <= |s|
    ensures |x.tokens| == 1 && x.tokens[0].kind == String
    ensures var str := x.tokens[0].value;
      ((x.used == |str| + 2 && s[x.used - 1] == '"') || x.used == |str| + 1 == |s|) &&
      '"' !in str && s[1..1 + |str|] == str
  {
    var (str, n) := Getline(s[1..], '"');
    Lexeme([Token(String, str)], 1 + n)
  }

  /** The `'#'` case: `getline(iss, comment)`, one COMMENT token with the `#` put back in front. */
  function CommentLexeme(s: string): (x: Lexeme)
    requires s != []
    ensures 0 < x.used <= |s|
    ensures |x.tokens| == 1 && x.tokens[0].kind == Comment
    ensures var c := x.tokens[0].value;
      ((x.used == |c| + 1 && s[x.used - 1] == '\n') || x.used == |c| == |s|) &&
      1 <= |c| && c == "#" + s[1..|c|] && '\n' !in c[1..]
  {
    var (comment, n) := Getline(s[1..], '\n');
    Lexeme([Token(Comment, "#" + comment)], 1 + n)
  }

  /** The tokens the loop of `tokenize` pushes for the text `s`. */
  function Scan(s: string): seq<Token>
    decreases |s|
  {
    if s == [] then [] else var x := Step(s); x.tokens + Scan(s[x.used..])
  }

  /** The vector `tokenize` returns. */
  function Lex(s: string): seq<Token> {
    Scan(s) + [EndToken]
  }

  /** One turn of the loop at `i` that emits `emitted` and moves to `next` leaves the rest of the scan from `next`. */
  lemma ScanAt(s: string, i: nat, emitted: seq<Token>, next: nat)
    requires i < |s| && emitted == Step(s[i..]).tokens && next == i + Step(s[i..]).used
    ensures next <= |s| && Scan(s[i..]) == emitted + Scan(s[next..])
  {
    assert s[i..][next - i..] == s[next..];
  }

  method Tokenize(input: string) returns (tokens: seq<Token>)
    ensures tokens == Lex(input)
    ensures |tokens| > 0 && tokens[|tokens| - 1] == EndToken
  {
    tokens := [];
    var i := 0;
    while i < |input|
      invariant i <= |input|
      invariant tokens + Scan(input[i..]) == Scan(input)
    {
      var x := Step(input[i..]);
      var emitted, next := x.tokens, i + x.used;
      ScanAt(input, i, emitted, next);
      Advance(tokens, emitted, Scan(input[i..]), Scan(input[next..]), Scan(input));
      tokens := tokens + emitted;
      i := next;
    }
    tokens := tokens + [EndToken];
  }

  /** The tokens pushed so far, then one turn's, then the rest. */
  lemma Advance(tokens: seq<Token>, emitted: seq<Token>, here: seq<Token>, rest: seq<Token>, all: seq<Token>)
    requires tokens + here == all && here == emitted + rest
    ensures (tokens + emitted) + rest == all
  {
  }

  // =====================================================================
  // AST
  // =====================================================================

  /**
    The AST node classes; a `std::unique_ptr<ASTNode>` is an `Option<Node>`.
    LiteralAssignmentNode is the `AssignmentNode(varName, value)` built from
    an `int` in the second assignment path of `parse`.
  */
  datatype Node =
    | IntegerNode(value: int)
    | VariableNode(name: string)
    | AssignmentNode(variable: string, expression: Option<Node>)
    | PrintNode(message: string, printed: string)
    | ExpressionNode(left: Option<Node>, right: Option<Node>, op: char)
    | LiteralAssignmentNode(target: string, literal: int)

  // =====================================================================
  // parse
  // =====================================================================

  /**
    Why `parse` does not return: a `std::runtime_error` it throws, a
    `std::stoi` that throws, or the end iterator dereferenced (undefined).
  */
  datatype Failure = RuntimeError(what: string) | StoiThrows(pos: nat) | DerefEnd(pos: nat)

  datatype Result<T> = Ok(value: T) | Fail(failure: Failure)

  function FirstChar(s: string): char {
    if s == [] then '\0' else s[0]
  }

  /**
    The first stage of an iteration of `parse`, at an ID: when `=` follows,
    an AssignmentNode of NUM, optionally `+`/`-` and a second NUM, or of
    nullptr when no NUM is there; and where `it` is left.
  */
  function AssignmentAt(t: seq<Token>, i: nat): (r: Result<(Option<Node>, nat)>)
    requires i < |t| && t[i].kind == Id
    ensures r.Ok? ==> i < r.value.1 <= |t|
    ensures r.Ok? ==> (r.value.0.Some? <==> i + 1 < |t| && t[i + 1].kind == Assign)
  {
    var name := t[i].value;
    var j := i + 1;
    if j < |t| && t[j].kind == Assign then
      var k := j + 1;
      if k < |t| && t[k].kind == Num then
        match Stoi(t[k].value)
        case None => Fail(StoiThrows(k))
        case Some(a) =>
          match SumAt(t, k + 1, a)
          case Fail(f) => Fail(f)
          case Ok((e, m)) => Ok((Some(AssignmentNode(name, Some(e))), m))
      else Ok((Some(AssignmentNode(name, None)), k))
    else Ok((None, j))
  }

  /**
    After the first NUM of an assignment, with value `a`, at `m`: the
    ExpressionNode of `+`/`-` and a second NUM, or IntegerNode `a` alone,
    with `it` past the operator when no NUM follows it.
  */
  function SumAt(t: seq<Token>, m: nat, a: int): (r: Result<(Node, nat)>)
    requires m <= |t|
    ensures r.Ok? ==> m <= r.value.1 <= |t|
    ensures r.Fail? <==> m + 1 < |t| && (t[m].kind == Plus || t[m].kind == Minus) && t[m + 1].kind == Num &&
                         Stoi(t[m + 1].value).None?
    ensures r.Fail? ==> r.failure == StoiThrows(m + 1)
    ensures m + 1 < |t| && (t[m].kind == Plus || t[m].kind == Minus) && t[m + 1].kind == Num &&
            Stoi(t[m + 1].value).Some? ==>
      r == Ok((ExpressionNode(Some(IntegerNode(a)), Some(IntegerNode(Stoi(t[m + 1].value).value)), FirstChar(t[m].value)), m + 2))
    ensures m < |t| && (t[m].kind == Plus || t[m].kind == Minus) && (m + 1 == |t| || t[m + 1].kind != Num) ==>
      r == Ok((IntegerNode(a), m + 1))
    ensures m == |t| || (t[m].kind != Plus && t[m].kind != Minus) ==> r == Ok((IntegerNode(a), m))
  {
    if m < |t| && (t[m].kind == Plus || t[m].kind == Minus) then
      var op := FirstChar(t[m].value);
      if m + 1 < |t| && t[m + 1].kind == Num then
        match Stoi(t[m + 1].value)
        case None => Fail(StoiThrows(m + 1))
        case Some(b) => Ok((ExpressionNode(Some(IntegerNode(a)), Some(IntegerNode(b)), op), m + 2))
      else Ok((IntegerNode(a), m + 1))
    else Ok((IntegerNode(a), m))
  }

  /** The PRINT branch of `parse`: exactly `PRINT ( STRING , ID )`, or the error it throws. */
  function PrintAt(t: seq<Token>, i: nat): (r: Result<(Node, nat)>)
    requires i < |t| && t[i].kind == Print
    ensures r.Ok? <==> i + 5 < |t| && t[i + 1].kind == LeftParen && t[i + 2].kind == String &&
                       t[i + 3].kind == Comma && t[i + 4].kind == Id && t[i + 5].kind == RightParen
    ensures r.Ok? ==> r.value == (PrintNode(t[i + 2].value, t[i + 4].value), i + 6)
    ensures r.Fail? ==> r.failure.RuntimeError?
    ensures i + 1 == |t| || t[i + 1].kind != LeftParen ==> r == Fail(RuntimeError("Expected '(' after 'print'"))
    ensures i + 1 < |t| && t[i + 1].kind == LeftParen && (i + 2 == |t| || t[i + 2].kind != String) ==>
      r == Fail(RuntimeError("Expected string after 'print('"))
    ensures i + 2 < |t| && t[i + 1].kind == LeftParen && t[i + 2].kind == String ==>
      r == PrintArgumentsAt(t, i, t[i + 2].value)
  {
    if i + 1 == |t| || t[i + 1].kind != LeftParen then Fail(RuntimeError("Expected '(' after 'print'"))
    else if i + 2 == |t| || t[i + 2].kind != String then Fail(RuntimeError("Expected string after 'print('"))
    else PrintArgumentsAt(t, i, t[i + 2].value)
  }

  /** The rest of the PRINT branch once `print(` and the STRING `message` at `i + 2` are read. */
  function PrintArgumentsAt(t: seq<Token>, i: nat, message: string): (r: Result<(Node, nat)>)
    requires i + 2 < |t|
    ensures r.Ok? <==> i + 5 < |t| && t[i + 3].kind == Comma && t[i + 4].kind == Id && t[i + 5].kind == RightParen
    ensures r.Ok? ==> r.value == (PrintNode(message, t[i + 4].value), i + 6)
    ensures r.Fail? ==> r.failure.RuntimeError?
    ensures i + 3 == |t| || t[i + 3].kind != Comma ==>
      r == Fail(RuntimeError("Expected ',' after 'print(\"" + message + "\"'"))
    ensures i + 3 < |t| && t[i + 3].kind == Comma && (i + 4 == |t| || t[i + 4].kind != Id) ==>
      r == Fail(RuntimeError("Expected identifier after 'print(\"" + message + "\", '"))
    ensures i + 4 < |t| && t[i + 3].kind == Comma && t[i + 4].kind == Id && (i + 5 == |t| || t[i + 5].kind != RightParen) ==>
      r == Fail(RuntimeError("Expected ')' after 'print(\"" + message + "\", " + t[i + 4].value + "')"))
  {
    if i + 3 == |t| || t[i + 3].kind != Comma then
      Fail(RuntimeError("Expected ',' after 'print(\"" + message + "\"'"))
    else if i + 4 == |t| || t[i + 4].kind != Id then
      Fail(RuntimeError("Expected identifier after 'print(\"" + message + "\", '"))
    else
      var variable := t[i + 4].value;
      if i + 5 == |t| || t[i + 5].kind != RightParen then
        Fail(RuntimeError("Expected ')' after 'print(\"" + message + "\", " + variable + "')"))
      else Ok((PrintNode(message, variable), i + 6))
  }

  /** The second assignment path of `parse`, at `ID ASSIGN`: NUM must follow. */
  function LiteralAt(t: seq<Token>, i: nat): (r: Result<(Node, nat)>)
    requires i + 1 < |t| && t[i].kind == Id && t[i + 1].kind == Assign
    ensures r.Ok? <==> i + 2 < |t| && t[i + 2].kind == Num && Stoi(t[i + 2].value).Some?
    ensures r.Ok? ==> r.value == (LiteralAssignmentNode(t[i].value, Stoi(t[i + 2].value).value), i + 3)
    ensures r.Fail? && i + 2 < |t| && t[i + 2].kind == Num ==> r.failure == StoiThrows(i + 2)
    ensures r.Fail? && (i + 2 == |t| || t[i + 2].kind != Num) ==>
      r.failure == RuntimeError("Expected number after '=" + t[i].value + "'")
  {
    var name := t[i].value;
    if i + 2 == |t| || t[i + 2].kind != Num then Fail(RuntimeError("Expected number after '=" + name + "'"))
    else
      match Stoi(t[i + 2].value)
      case None => Fail(StoiThrows(i + 2))
      case Some(v) => Ok((LiteralAssignmentNode(name, v), i + 3))
  }

  /**
    The second stage of an iteration of `parse`, at `i` (which the first
    stage may have moved to the end): PRINT, `ID ASSIGN`, or any other token,
    which is skipped.
  */
  function SecondStageAt(t: seq<Token>, i: nat): (r: Result<(Option<Node>, nat)>)
    requires i <= |t|
    ensures r.Ok? ==> i < r.value.1 <= |t|
    ensures i < |t| && t[i].kind != Print && !(t[i].kind == Id && i + 1 < |t| && t[i + 1].kind == Assign) ==>
      r.Ok? && r.value.0.None? && r.value.1 == i + 1
  {
    if i == |t| then Fail(DerefEnd(i))
    else if t[i].kind == Print then
      match PrintAt(t, i)
      case Fail(f) => Fail(f)
      case Ok((n, k)) => Ok((Some(n), k))
    else if t[i].kind == Id && i + 1 < |t| && t[i + 1].kind == Assign then
      match LiteralAt(t, i)
      case Fail(f) => Fail(f)
      case Ok((n, k)) => Ok((Some(n), k))
    else Ok((None, i + 1))
  }

  /** The nodes one node or none contributes to `program`. */
  function Pushed(n: Option<Node>): seq<Node> {
    if n.Some? then [n.value] else []
  }

  /** One iteration of the loop of `parse` at `i`: the nodes pushed, and where `it` is left. */
  function IterationAt(t: seq<Token>, i: nat): (r: Result<(seq<Node>, nat)>)
    requires i < |t|
    ensures r.Ok? ==> i < r.value.1 <= |t| && |r.value.0| <= 2
  {
    if t[i].kind == Id then
      match AssignmentAt(t, i)
      case Fail(f) => Fail(f)
      case Ok((a, j)) =>
        match SecondStageAt(t, j)
        case Fail(f) => Fail(f)
        case Ok((b, k)) => Ok((Pushed(a) + Pushed(b), k))
    else
      match SecondStageAt(t, i)
      case Fail(f) => Fail(f)
      case Ok((b, k)) => Ok((Pushed(b), k))
  }

  /** The loop of `parse` from `i`, with the nodes `program` pushed so far. */
  function ParseLoop(t: seq<Token>, i: nat, program: seq<Node>): Result<seq<Node>>
    requires i <= |t|
    decreases |t| - i
  {
    if i == |t| || t[i].kind == End then Ok(program)
    else
      match IterationAt(t, i)
      case Fail(f) => Fail(f)
      case Ok((ns, k)) => ParseLoop(t, k, program + ns)
  }

  function ParseProgram(t: seq<Token>): Result<seq<Node>> {
    ParseLoop(t, 0, [])
  }

  method Parse(tokens: seq<Token>) returns (r: Result<seq<Node>>)
    ensures r == ParseProgram(tokens)
  {
    var program: seq<Node> := [];
    var it := 0;
    while it < |tokens| && tokens[it].kind != End
      invariant it <= |tokens|
      invariant ParseLoop(tokens, it, program) == ParseProgram(tokens)
      decreases |tokens| - it
    {
      ghost var start, program0 := it, program;
      var first: seq<Node> := [];
      if tokens[it].kind == Id {
        var a := AssignmentAt(tokens, it);
        if a.Fail? {
          return Fail(a.failure);
        }
        first := Pushed(a.value.0);
        program := program + first;
        it := a.value.1;
      }
      var b := SecondStageAt(tokens, it);
      if b.Fail? {
        return Fail(b.failure);
      }
      program := program + Pushed(b.value.0);
      assert tokens[start].kind != Id ==> first + Pushed(b.value.0) == Pushed(b.value.0);
      assert IterationAt(tokens, start) == Ok((first + Pushed(b.value.0), b.value.1));
      assert program == program0 + (first + Pushed(b.value.0));
      it := b.value.1;
    }
    r := Ok(program);
  }

  // =====================================================================
  // evaluate
  // =====================================================================

  /** The reserved context key an expression leaves its value in. */
  const ResultKey: string := "__expr_result"

  /** The `context` map and the lines appended to the output file. */
  datatype State = State(vars: map<string, int>, out: seq<string>)

  /** The state after an evaluation, or the state at which `+`/`-` overflowed `int` (undefined). */
  datatype Exec = Normal(st: State) | Overflow(st: State)

  /** The value an operand contributes to ExpressionNode (0 for nullptr), or the overflow that stops it. */
  datatype Operand = Operand(value: int, st: State) | Failed(e: Exec)

  /** `if (child) { child->evaluate(context); val = context["__expr_result"]; }`, with `val` starting at 0. */
  function OperandOf(child: Option<Node>, st: State): (r: Operand)
    ensures r.Failed? ==> r.e.Overflow?
    decreases child, 1
  {
    if child.None? then Operand(0, st)
    else
      match Eval(child.value, st)
      case Overflow(s) => Failed(Overflow(s))
      case Normal(s) => Operand(Get(s.vars, ResultKey), s.(vars := Touch(s.vars, ResultKey)))
  }

  /** `evaluate` of each node class on the context and output of `st`. */
  function Eval(n: Node, st: State): (r: Exec)
    decreases n, 2
  {
    match n
    case IntegerNode(_) => Normal(st)
    case VariableNode(_) => Normal(st)
    case AssignmentNode(x, e) =>
      if e.None? then Normal(st)
      else
        (match Eval(e.value, st)
         case Overflow(s) => Overflow(s)
         case Normal(s) => Normal(s.(vars := Touch(s.vars, ResultKey)[x := Get(s.vars, ResultKey)])))
    case PrintNode(_, x) =>
      if x in st.vars then Normal(st.(out := st.out + [x + " = " + IntToString(st.vars[x])])) else Normal(st)
    case ExpressionNode(l, r, op) =>
      (match OperandOf(l, st)
       case Failed(e) => e
       case Operand(a, s1) =>
         match OperandOf(r, s1)
         case Failed(e) => e
         case Operand(b, s2) =>
           if op == '+' then
             if InInt32(a + b) then Normal(s2.(vars := s2.vars[ResultKey := a + b])) else Overflow(s2)
           else if op == '-' then
             if InInt32(a - b) then Normal(s2.(vars := s2.vars[ResultKey := a - b])) else Overflow(s2)
           else Normal(s2))
    case LiteralAssignmentNode(x, v) => Normal(st.(vars := st.vars[x := v]))
  }

  /** The nodes of `program` evaluated in order, stopping at the first overflow. */
  function Run(program: seq<Node>, st: State): (r: Exec)
    decreases |program|
  {
    if program == [] then Normal(st)
    else
      match Run(program[..|program| - 1], st)
      case Overflow(s) => Overflow(s)
      case Normal(s) => Eval(program[|program| - 1], s)
  }

  /** The evaluation loop of `main`, from an empty context and no output. */
  method Execute(program: seq<Node>) returns (r: Exec)
    ensures r == Run(program, State(map[], []))
  {
    r := Normal(State(map[], []));
    for k := 0 to |program|
      invariant r == Run(program[..k], State(map[], []))
    {
      assert program[..k + 1][..k] == program[..k];
      if r.Normal? {
        r := Eval(program[k], r.st);
      }
    }
    assert program[..|program|] == program;
  }
}
