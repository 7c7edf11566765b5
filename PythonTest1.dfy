/**
  pythontest1.cpp: a character scanner, a parser over the token vector with a
  shared iterator, and an AST whose `evaluate` methods communicate through the
  reserved context key "__expr_result".

  The iterator `it` that `parse`, `parseStatement` and `parseExpression` share
  by reference is an index into the token sequence, threaded in and out. The
  context map passed by reference to `evaluate` is threaded the same way,
  together with the lines written to standard output.
*/
module PythonTest1 {
  import opened Wrappers
  import opened CppStd

  // =====================================================================
  // Tokens
  // =====================================================================

  datatype Kind =
    | Id | Num | Assign | Print | String | Colon | End | Comment | Plus
    | LeftParen | RightParen | Equals | Number | Comma | Newline | Minus
    | GreaterThan | LessThan | If | LeftBrace | RightBrace | Else

  datatype Token = Token(kind: Kind, value: string)

  const EndToken: Token := Token(End, "")

  // =====================================================================
  // tokenize
  // =====================================================================

  /** What one turn of the `tokenize` loop emits, and how many characters it reads. */
  datatype Lexeme = Lexeme(tokens: seq<Token>, used: nat)

  /** The `switch` cases that push fixed tokens and read nothing after `ch`. */
  function SymbolTokens(c: char): Option<seq<Token>> {
    if c == '=' then Some([Token(Assign, "=")])
    else if c == '+' then Some([Token(Plus, "+")])
    else if c == '-' then Some([Token(Minus, "-")])
    else if c == '(' then Some([Token(LeftParen, "(")])
    else if c == ')' then Some([Token(RightParen, ")")])
    else if c == ',' then Some([Token(Comma, ",")])
    else if c == ';' then Some([Token(Colon, ";")])
    else if c == '>' then Some([Token(GreaterThan, ">")])
    else if c == '<' then Some([Token(LessThan, "<")])
    else if c == ':' then Some([Token(Colon, ":"), EndToken])
    else None
  }

  /**
    One turn of the `tokenize` loop on the unread text `s`. When the stream
    fails (a keyword read past the end, an unterminated string or comment,
    a number too large for `int`) the rest of the text counts as read, since
    nothing more is extracted from a failed stream.
  */
  function Step(s: string): (x: Lexeme)
    requires s != []
    ensures 0 < x.used <= |s|
  {
    var c := s[0];
    if IsSpace(c) then Lexeme(if c == '\n' then [Token(Newline, "\\n")] else [], 1)
    else if SymbolTokens(c).Some? then Lexeme(SymbolTokens(c).value, 1)
    else if c == '"' then StringLexeme(s)
    else if c == '#' then CommentLexeme(s)
    else if c == 'i' then Lexeme([Token(If, "if")], if |s| >= 2 then 2 else |s|)
    else if c == 'e' then Lexeme([Token(Else, "else")], if |s| >= 4 then 4 else |s|)
    else if IsDigit(c) then NumberLexeme(s)
    else if IsAlpha(c) then WordLexeme(s)
    else Lexeme([], 1)
  }

  /** The `'"'` case: `getline(iss, str, '"')`, the text up to the closing quote. */
  function StringLexeme(s: string): (x: Lexeme)
    requires s != []
    ensures 0 < x.used <= |s|
    ensures |x.tokens| == 1 && x.tokens[0].kind == String
    ensures var str := x.tokens[0].value;
      ((x.used == |str| + 2 && s[x.used - 1] == '"') || x.used == |str| + 1 == |s|) &&
      '"' !in str && s[1..1 + |str|] == str
  {
    var (str, n) := Getline(s[1..], '"');
    Lexeme([Token(String, str)], 1 + n)
  }

  /** The `'#'` case: `getline(iss, str)` skips the rest of the line and pushes nothing. */
  function CommentLexeme(s: string): (x: Lexeme)
    requires s != []
    ensures 0 < x.used <= |s|
    ensures x.tokens == []
    ensures (x.used == |s| && '\n' !in s[1..]) || (1 < x.used && s[x.used - 1] == '\n' && '\n' !in s[1..x.used - 1])
  {
    var (_, n) := Getline(s[1..], '\n');
    Lexeme([], 1 + n)
  }

  /** A digit: `putback` and `iss >> num`, which stores INT_MAX and fails the stream on overflow. */
  function NumberLexeme(s: string): (x: Lexeme)
    requires s != [] && IsDigit(s[0])
    ensures 0 < x.used <= |s|
    ensures |x.tokens| == 1 && x.tokens[0].kind == Num && Canonical(x.tokens[0].value)
    ensures var v := DecimalValue(s[..DigitRun(s)]);
      if v <= INT_MAX then x.used == DigitRun(s) && DecimalValue(x.tokens[0].value) == v
      else x.used == |s| && DecimalValue(x.tokens[0].value) == INT_MAX
  {
    var n := DigitRun(s);
    var v := DecimalValue(s[..n]);
    NatToStringDecimal(v);
    NatToStringCanonical(v);
    IntMaxTextIsToString();
    if v <= INT_MAX then Lexeme([Token(Num, NatToString(v))], n)
    else Lexeme([Token(Num, IntMaxText)], |s|)
  }

  /** A letter: the longest run of letters and digits after it is an identifier. */
  function WordLexeme(s: string): (x: Lexeme)
    requires s != []
    ensures 0 < x.used <= |s|
    ensures x.tokens == [Token(Id, s[..x.used])]
    ensures forall k :: 1 <= k < x.used ==> IsAlnum(s[k])
    ensures x.used == |s| || !IsAlnum(s[x.used])
  {
    var n := 1 + AlnumRun(s[1..]);
    Lexeme([Token(Id, s[..n])], n)
  }

  /** The tokens the loop of `tokenize` pushes for the text `s`. */
  function Scan(s: string): seq<Token>
    decreases |s|
  {
    if s == [] then [] else var x := Step(s); x.tokens + Scan(s[x.used..])
  }

  /** The vector `tokenize` returns. */
  function Lex(s: string): seq<Token> {
    Scan(s) + [EndToken]
  }

  /** One turn of the loop at `i` that emits `emitted` and moves to `next` leaves the rest of the scan from `next`. */
  lemma ScanAt(s: string, i: nat, emitted: seq<Token>, next: nat)
    requires i < |s| && emitted == Step(s[i..]).tokens && next == i + Step(s[i..]).used
    ensures next <= |s| && Scan(s[i..]) == emitted + Scan(s[next..])
  {
    assert s[i..][next - i..] == s[next..];
  }

  /** A letter other than `i` and `e` is the identifier case of the `tokenize` loop. */
  lemma LetterStepIsWord(s: string)
    requires s != [] && IsAlpha(s[0]) && s[0] != 'i' && s[0] != 'e'
    ensures Step(s) == WordLexeme(s)
  {
    var c := s[0];
    assert !IsSpace(c) && SymbolTokens(c).None? && !IsDigit(c);
  }

  method Tokenize(input: string) returns (tokens: seq<Token>)
    ensures tokens == Lex(input)
    ensures |tokens| > 0 && tokens[|tokens| - 1] == EndToken
  {
    tokens := [];
    var i := 0;
    while i < |input|
      invariant i <= |input|
      invariant tokens + Scan(input[i..]) == Scan(input)
    {
      var emitted: seq<Token>, next: nat;
      if IsAlpha(input[i]) && input[i] != 'i' && input[i] != 'e' {
        LetterStepIsWord(input[i..]);
        emitted, next := ReadWord(input, i);
      } else {
        var x := Step(input[i..]);
        emitted, next := x.tokens, i + x.used;
      }
      ScanAt(input, i, emitted, next);
      Advance(tokens, emitted, Scan(input[i..]), Scan(input[next..]), Scan(input));
      tokens := tokens + emitted;
      i := next;
    }
    tokens := tokens + [EndToken];
  }

  /** The tokens pushed so far, then one turn's, then the rest. */
  lemma Advance(tokens: seq<Token>, emitted: seq<Token>, here: seq<Token>, rest: seq<Token>, all: seq<Token>)
    requires tokens + here == all && here == emitted + rest
    ensures (tokens + emitted) + rest == all
  {
  }

  /** The letter case of the `tokenize` loop: letters and digits appended while `isalnum(iss.peek())`. */
  method ReadWord(input: string, i: nat) returns (emitted: seq<Token>, next: nat)
    requires i < |input|
    ensures emitted == WordLexeme(input[i..]).tokens
    ensures next == i + WordLexeme(input[i..]).used
  {
    var identifier := [input[i]];
    next := i + 1;
    while next < |input| && IsAlnum(input[next])
      invariant i + 1 <= next <= |input|
      invariant identifier == input[i..next]
      invariant forall k :: i < k < next ==> IsAlnum(input[k])
      decreases |input| - next
    {
      identifier := identifier + [input[next]];
      next := next + 1;
    }
    assert 1 + AlnumRun(input[i + 1..]) == next - i by {
      var s := input[i + 1..];
      assert forall k :: 0 <= k < next - i - 1 ==> IsAlnum(s[k]);
    }
    assert input[i..][1..] == input[i + 1..];
    assert input[i..][..next - i] == identifier;
    emitted := [Token(Id, identifier)];
  }

  // =====================================================================
  // AST
  // =====================================================================

  /** The AST node classes; a `std::unique_ptr<ASTNode>` is an `Option<Node>`, None for nullptr. */
  datatype Node =
    | IntegerNode(value: int)
    | VariableNode(name: string)
    | ComparisonNode(left: Option<Node>, right: Option<Node>, op: char)
    | IfElseNode(condition: Option<Node>, trueBranch: seq<Option<Node>>, falseBranch: seq<Option<Node>>)
    | AssignmentNode(variable: string, expression: Option<Node>)
    | ExpressionNode(left: Option<Node>, right: Option<Node>, op: char)
    | PrintNode(message: string, variable: string)

  // =====================================================================
  // parseExpression, parseStatement, parse
  // =====================================================================

  /** Ways the parser leaves defined behaviour. */
  datatype ParseFault =
    | DerefEnd(pos: nat)     // `it->type` with `it == tokens.end()`, at index `pos`
    | AdvanceEnd             // `++it` with `it == tokens.end()` after a brace loop
    | StoiThrows(pos: nat)   // `std::stoi` of the NUM token at `pos` throws
    | Diverges(pos: nat)     // `parseStatement` does not advance at `pos`: a brace loop never ends

  /** A parsed value with the iterator position after it, or the fault that stops parsing. */
  datatype Result<T> = Ok(value: T) | Fail(fault: ParseFault)

  /** `it->value[0]`; `operator[]` at the size of an empty string yields the null character. */
  function FirstChar(s: string): char {
    if s == [] then '\0' else s[0]
  }

  predicate IsOperator(k: Kind) {
    k == Plus || k == Minus || k == GreaterThan || k == LessThan
  }

  /** The operand `parseExpression` builds from the token at `i`: NUM, ID, or nullptr for any other token. */
  function OperandAt(t: seq<Token>, i: nat): (r: Result<Option<Node>>)
    requires i < |t|
    ensures r.Fail? <==> t[i].kind == Num && Stoi(t[i].value).None?
    ensures r.Ok? ==> (r.value.Some? <==> t[i].kind in {Num, Id})
    ensures t[i].kind == Num && Stoi(t[i].value).Some? ==> r == Ok(Some(IntegerNode(Stoi(t[i].value).value)))
    ensures t[i].kind == Id ==> r == Ok(Some(VariableNode(t[i].value)))
  {
    if t[i].kind == Num then
      match Stoi(t[i].value)
      case Some(v) => Ok(Some(IntegerNode(v)))
      case None => Fail(StoiThrows(i))
    else if t[i].kind == Id then Ok(Some(VariableNode(t[i].value)))
    else Ok(None)
  }

  /** The node `parseExpression` makes of `left op right`; an operator outside `+ - > <` keeps `left`. */
  function Combine(left: Option<Node>, right: Option<Node>, op: char): Option<Node> {
    if op == '+' || op == '-' then Some(ExpressionNode(left, right, op))
    else if op == '>' || op == '<' then Some(ComparisonNode(left, right, op))
    else left
  }

  /** The binary-operation loop of `parseExpression`, entered at `i` with the tree `left` built so far. */
  function OperatorLoop(t: seq<Token>, i: nat, left: Option<Node>): (r: Result<(Option<Node>, nat)>)
    requires i <= |t|
    ensures r.Ok? ==> i <= r.value.1 <= |t|
    decreases |t| - i
  {
    if i < |t| && IsOperator(t[i].kind) then
      var op := FirstChar(t[i].value);
      if i + 1 == |t| then Fail(DerefEnd(i + 1))
      else
        match OperandAt(t, i + 1)
        case Fail(f) => Fail(f)
        case Ok(right) => OperatorLoop(t, i + 2, Combine(left, right, op))
    else Ok((left, i))
  }

  /** `parseExpression` entered with `it` at `i`: the tree and where `it` is left. */
  function ExpressionAt(t: seq<Token>, i: nat): (r: Result<(Option<Node>, nat)>)
    requires i <= |t|
    ensures r.Ok? ==> i <= r.value.1 <= |t|
  {
    if i == |t| then Fail(DerefEnd(i))
    else if t[i].kind == Num || t[i].kind == Id then
      match OperandAt(t, i)
      case Fail(f) => Fail(f)
      case Ok(left) => OperatorLoop(t, i + 1, left)
    else OperatorLoop(t, i, None)
  }

  /**
    The shared `ID ASSIGN expression` path of `parseStatement` and `parse`,
    at an ID token: the assignment, or nullptr with `it` one past the ID
    when no ASSIGN follows.
  */
  function AssignmentAt(t: seq<Token>, i: nat): (r: Result<(Option<Node>, nat)>)
    requires i < |t| && t[i].kind == Id
    ensures r.Ok? ==> i < r.value.1 <= |t|
    ensures r.Ok? ==> (r.value.0.Some? <==> i + 1 < |t| && t[i + 1].kind == Assign)
    ensures r.Ok? && r.value.0.Some? ==>
      ExpressionAt(t, i + 2).Ok? &&
      r.value == (Some(AssignmentNode(t[i].value, ExpressionAt(t, i + 2).value.0)), ExpressionAt(t, i + 2).value.1)
    ensures r.Ok? && r.value.0.None? ==> r.value.1 == i + 1
    ensures r.Fail? <==> i + 1 < |t| && t[i + 1].kind == Assign && ExpressionAt(t, i + 2).Fail?
  {
    if i + 1 < |t| && t[i + 1].kind == Assign then
      match ExpressionAt(t, i + 2)
      case Fail(f) => Fail(f)
      case Ok((e, k)) => Ok((Some(AssignmentNode(t[i].value, e)), k))
    else Ok((None, i + 1))
  }

  /** `parseStatement` at `i`: only an ID moves `it`; every other token gives nullptr and stays put. */
  function StatementAt(t: seq<Token>, i: nat): (r: Result<(Option<Node>, nat)>)
    requires i < |t|
    ensures r.Ok? ==> i <= r.value.1 <= |t|
    ensures r.Ok? && t[i].kind != Id ==> r.value == (None, i)
  {
    if t[i].kind == Id then AssignmentAt(t, i) else Ok((None, i))
  }

  /** The `while (it != end && it->type != RIGHT_BRACE)` loop and the `++it` after it. */
  function BraceLoop(t: seq<Token>, i: nat, acc: seq<Option<Node>>): (r: Result<(seq<Option<Node>>, nat)>)
    requires i <= |t|
    ensures r.Ok? ==> i < r.value.1 <= |t| && t[r.value.1 - 1].kind == RightBrace
    ensures r.Ok? ==> acc <= r.value.0
    decreases |t| - i
  {
    if i < |t| && t[i].kind != RightBrace then
      match StatementAt(t, i)
      case Fail(f) => Fail(f)
      case Ok((s, j)) =>
        if j == i then Fail(Diverges(i))
        else
          assert acc <= acc + [s];
          BraceLoop(t, j, acc + [s])
    else if i == |t| then Fail(AdvanceEnd)
    else Ok((acc, i + 1))
  }

  /** A branch of an if-else at `i`: the statements inside braces, or none when no LEFT_BRACE is there. */
  function BranchAt(t: seq<Token>, i: nat): (r: Result<(seq<Option<Node>>, nat)>)
    requires i <= |t|
    ensures r.Ok? ==> i <= r.value.1 <= |t|
  {
    if i == |t| then Fail(DerefEnd(i))
    else if t[i].kind == LeftBrace then BraceLoop(t, i + 1, [])
    else Ok(([], i))
  }

  /** The IF case of `parse`, at the IF token. */
  function IfElseAt(t: seq<Token>, i: nat): (r: Result<(Node, nat)>)
    requires i < |t|
    ensures r.Ok? ==> i < r.value.1 <= |t| && r.value.0.IfElseNode?
    ensures r.Ok? ==> ExpressionAt(t, i + 1).Ok? && r.value.0.condition == ExpressionAt(t, i + 1).value.0
    ensures r.Ok? ==>
      var k := ExpressionAt(t, i + 1).value.1;
      BranchAt(t, k).Ok? && r.value.0.trueBranch == BranchAt(t, k).value.0
    ensures ExpressionAt(t, i + 1).Fail? ==> r == Fail(ExpressionAt(t, i + 1).fault)
    ensures ExpressionAt(t, i + 1).Ok? ==>
      var (c, k) := ExpressionAt(t, i + 1).value;
      (BranchAt(t, k).Fail? ==> r == Fail(BranchAt(t, k).fault)) &&
      (BranchAt(t, k).Ok? ==> r == ElseAt(t, c, BranchAt(t, k).value.0, BranchAt(t, k).value.1))
  {
    match ExpressionAt(t, i + 1)
    case Fail(f) => Fail(f)
    case Ok(c) =>
      match BranchAt(t, c.1)
      case Fail(f) => Fail(f)
      case Ok(tb) => ElseAt(t, c.0, tb.0, tb.1)
  }

  /** The rest of the IF case once the true branch ends at `k`: an ELSE branch, or none. */
  function ElseAt(t: seq<Token>, cond: Option<Node>, tb: seq<Option<Node>>, k: nat): (r: Result<(Node, nat)>)
    requires k <= |t|
    ensures r.Ok? ==> k <= r.value.1 <= |t| && r.value.0.IfElseNode?
    ensures r.Ok? ==> r.value.0.condition == cond && r.value.0.trueBranch == tb
    ensures k < |t| && t[k].kind == Else ==>
      (r.Ok? <==> BranchAt(t, k + 1).Ok?) &&
      (r.Ok? ==> r.value.0.falseBranch == BranchAt(t, k + 1).value.0 && r.value.1 == BranchAt(t, k + 1).value.1)
    ensures k == |t| || t[k].kind != Else ==> r == Ok((IfElseNode(cond, tb, []), k))
  {
    if k < |t| && t[k].kind == Else then
      match BranchAt(t, k + 1)
      case Fail(f) => Fail(f)
      case Ok(fb) => Ok((IfElseNode(cond, tb, fb.0), fb.1))
    else Ok((IfElseNode(cond, tb, []), k))
  }

  /** The PRINT case of `parse`, at the PRINT token: a PrintNode only for PRINT ( STRING , ID ). */
  function PrintAt(t: seq<Token>, i: nat): (r: Result<(Option<Node>, nat)>)
    requires i < |t|
    ensures r.Ok? ==> i < r.value.1 <= |t|
    ensures r.Ok? && r.value.0.Some? ==>
      r.value.1 == i + 6 && t[i + 1].kind == LeftParen && t[i + 2].kind == String &&
      t[i + 3].kind == Comma && t[i + 4].kind == Id && t[i + 5].kind == RightParen &&
      r.value.0.value == PrintNode(t[i + 2].value, t[i + 4].value)
    ensures i + 5 < |t| && t[i + 1].kind == LeftParen && t[i + 2].kind == String &&
            t[i + 3].kind == Comma && t[i + 4].kind == Id && t[i + 5].kind == RightParen ==>
      r == Ok((Some(PrintNode(t[i + 2].value, t[i + 4].value)), i + 6))
  {
    var p := i + 1;
    if p == |t| then Fail(DerefEnd(p))
    else if t[p].kind != LeftParen then Ok((None, p))
    else if p + 1 == |t| then Fail(DerefEnd(p + 1))
    else if t[p + 1].kind != String then Ok((None, p + 1))
    else if p + 2 == |t| then Fail(DerefEnd(p + 2))
    else if t[p + 2].kind != Comma then Ok((None, p + 2))
    else if p + 3 == |t| then Fail(DerefEnd(p + 3))
    else if t[p + 3].kind != Id then Ok((None, p + 3))
    else if p + 4 == |t| then Fail(DerefEnd(p + 4))
    else if t[p + 4].kind != RightParen then Ok((None, p + 4))
    else Ok((Some(PrintNode(t[p + 1].value, t[p + 3].value)), p + 5))
  }

  /** How the loop of `parse` ends: at END or the end of the tokens, at a syntax error, or in a fault. */
  datatype Outcome = Finished(program: seq<Node>) | SyntaxError(pos: nat) | Crashed(fault: ParseFault)

  /** The loop of `parse` from `i`, with the statements `program` collected so far. */
  function ParseLoop(t: seq<Token>, i: nat, program: seq<Node>): Outcome
    requires i <= |t|
    decreases |t| - i
  {
    if i == |t| || t[i].kind == End then Finished(program)
    else if t[i].kind == Newline then ParseLoop(t, i + 1, program)
    else if t[i].kind == Id then
      match AssignmentAt(t, i)
      case Fail(f) => Crashed(f)
      case Ok((s, k)) => ParseLoop(t, k, if s.Some? then program + [s.value] else program)
    else if t[i].kind == If then
      match IfElseAt(t, i)
      case Fail(f) => Crashed(f)
      case Ok((n, k)) => ParseLoop(t, k, program + [n])
    else if t[i].kind == Print then
      match PrintAt(t, i)
      case Fail(f) => Crashed(f)
      case Ok((s, k)) => ParseLoop(t, k, if s.Some? then program + [s.value] else program)
    else SyntaxError(i)
  }

  /** What `parse` returns: the program (empty after a syntax error), or the fault. */
  datatype Parsed = Program(nodes: seq<Node>) | Undefined(fault: ParseFault)

  function ProgramOf(t: seq<Token>): Parsed {
    match ParseLoop(t, 0, [])
    case Finished(p) => Program(p)
    case SyntaxError(_) => Program([])
    case Crashed(f) => Undefined(f)
  }

  /**
    The IF case of `parse` at the IF token: the condition by ParseExpression,
    the true branch by ParseBranch, then an ELSE and the false branch by
    ParseBranch.
  */
  method ParseIfElse(tokens: seq<Token>, it: nat) returns (r: Result<(Node, nat)>)
    requires it < |tokens|
    ensures r == IfElseAt(tokens, it)
  {
    var cond := ParseExpression(tokens, it + 1);
    if cond.Fail? {
      return Fail(cond.fault);
    }
    var i := cond.value.1;
    var trueBranch := ParseBranch(tokens, i);
    if trueBranch.Fail? {
      return Fail(trueBranch.fault);
    }
    i := trueBranch.value.1;
    var falseBranch: seq<Option<Node>> := [];
    if i < |tokens| && tokens[i].kind == Else {
      var b := ParseBranch(tokens, i + 1);
      if b.Fail? {
        return Fail(b.fault);
      }
      falseBranch, i := b.value.0, b.value.1;
    }
    return Ok((IfElseNode(cond.value.0, trueBranch.value.0, falseBranch), i));
  }

  /** The `while` loop of `parseExpression` over `op operand` pairs, from `it` with `left` built so far. */
  method ParseOperations(tokens: seq<Token>, it: nat, left0: Option<Node>) returns (r: Result<(Option<Node>, nat)>)
    requires it <= |tokens|
    ensures r == OperatorLoop(tokens, it, left0)
  {
    var i, left := it, left0;
    while i < |tokens| && IsOperator(tokens[i].kind)
      invariant it <= i <= |tokens|
      invariant OperatorLoop(tokens, i, left) == OperatorLoop(tokens, it, left0)
      decreases |tokens| - i
    {
      var op := FirstChar(tokens[i].value);
      i := i + 1;
      if i == |tokens| {
        return Fail(DerefEnd(i));
      }
      var operand := OperandAt(tokens, i);
      if operand.Fail? {
        return Fail(operand.fault);
      }
      var right := operand.value;
      i := i + 1;
      if op == '+' || op == '-' {
        left := Some(ExpressionNode(left, right, op));
      } else if op == '>' || op == '<' {
        left := Some(ComparisonNode(left, right, op));
      }
    }
    return Ok((left, i));
  }

  /** `parseExpression`: the optional leading operand, then the `while` loop of ParseOperations. */
  method ParseExpression(tokens: seq<Token>, it: nat) returns (r: Result<(Option<Node>, nat)>)
    requires it <= |tokens|
    ensures r == ExpressionAt(tokens, it)
  {
    if it == |tokens| {
      return Fail(DerefEnd(it));
    }
    if tokens[it].kind == Num || tokens[it].kind == Id {
      var left := OperandAt(tokens, it);
      if left.Fail? {
        return Fail(left.fault);
      }
      r := ParseOperations(tokens, it + 1, left.value);
    } else {
      r := ParseOperations(tokens, it, None);
    }
  }

  /** `if (it->type == LEFT_BRACE) { ++it; while (...) push(parseStatement(...)); ++it; }` */
  method ParseBranch(tokens: seq<Token>, it: nat) returns (r: Result<(seq<Option<Node>>, nat)>)
    requires it <= |tokens|
    ensures r == BranchAt(tokens, it)
  {
    if it == |tokens| {
      return Fail(DerefEnd(it));
    }
    if tokens[it].kind != LeftBrace {
      return Ok(([], it));
    }
    var i := it + 1;
    var branch: seq<Option<Node>> := [];
    while i < |tokens| && tokens[i].kind != RightBrace
      invariant it < i <= |tokens|
      invariant BraceLoop(tokens, i, branch) == BranchAt(tokens, it)
      decreases |tokens| - i
    {
      var s := StatementAt(tokens, i);
      if s.Fail? {
        return Fail(s.fault);
      }
      if s.value.1 == i {
        // the source pushes nullptr here forever
        return Fail(Diverges(i));
      }
      branch := branch + [s.value.0];
      i := s.value.1;
    }
    if i == |tokens| {
      return Fail(AdvanceEnd);
    }
    return Ok((branch, i + 1));
  }

  method Parse(tokens: seq<Token>) returns (r: Parsed)
    ensures r == ProgramOf(tokens)
  {
    var program: seq<Node> := [];
    var it := 0;
    while it < |tokens| && tokens[it].kind != End
      invariant it <= |tokens|
      invariant ParseLoop(tokens, it, program) == ParseLoop(tokens, 0, [])
      decreases |tokens| - it
    {
      if tokens[it].kind == Newline {
        it := it + 1;
        continue;
      }
      if tokens[it].kind == Id {
        var varName := tokens[it].value;
        it := it + 1;
        if it < |tokens| && tokens[it].kind == Assign {
          it := it + 1;
          var e := ParseExpression(tokens, it);
          if e.Fail? {
            return Undefined(e.fault);
          }
          program := program + [AssignmentNode(varName, e.value.0)];
          it := e.value.1;
        }
      } else if tokens[it].kind == If {
        var n := ParseIfElse(tokens, it);
        if n.Fail? {
          return Undefined(n.fault);
        }
        program := program + [n.value.0];
        it := n.value.1;
      } else if tokens[it].kind == Print {
        var n := PrintAt(tokens, it);
        if n.Fail? {
          return Undefined(n.fault);
        }
        if n.value.0.Some? {
          program := program + [n.value.0.value];
        }
        it := n.value.1;
      } else {
        // "Syntax Error: Unexpected token ..."
        return Program([]);
      }
    }
    return Program(program);
  }

  // =====================================================================
  // evaluate
  // =====================================================================

  /** The reserved context key through which nodes hand their value to their parent. */
  const ResultKey: string := "__expr_result"

  /** The `context` map and the lines written to standard output. */
  datatype State = State(vars: map<string, int>, out: seq<string>)

  /** Why evaluation leaves defined behaviour: a null child is called, or `+`/`-` overflows `int`. */
  datatype Why = NullNode | Overflow

  /** The state after an evaluation, or the state at the point where behaviour became undefined. */
  datatype Exec = Normal(st: State) | Crash(st: State, why: Why)

  /** Output only grows: `e` extends the output of `st`. */
  predicate Extends(e: Exec, st: State) {
    |st.out| <= |e.st.out| && e.st.out[..|st.out|] == st.out
  }

  /** The two operand values of a binary node, or the crash that stops it. */
  datatype Operands = Operands(a: int, b: int, st: State) | Failed(e: Exec)

  /**
    `left->evaluate; leftVal = context[key]; right->evaluate; rightVal = context[key]`,
    shared by ComparisonNode and ExpressionNode.
  */
  function EvalOperands(n: Node, st: State): (r: Operands)
    requires n.ComparisonNode? || n.ExpressionNode?
    ensures r.Failed? ==> r.e.Crash? && Extends(r.e, st)
    ensures r.Operands? ==> Extends(Normal(r.st), st) && ResultKey in r.st.vars && r.st.vars[ResultKey] == r.b
    decreases n, 1
  {
    if n.left.None? then Failed(Crash(st, NullNode))
    else
      match Eval(n.left.value, st)
      case Crash(s, w) => Failed(Crash(s, w))
      case Normal(s1) =>
        var a := Get(s1.vars, ResultKey);
        var s1' := s1.(vars := Touch(s1.vars, ResultKey));
        if n.right.None? then Failed(Crash(s1', NullNode))
        else
          match Eval(n.right.value, s1')
          case Crash(s, w) => Failed(Crash(s, w))
          case Normal(s2) => Operands(a, Get(s2.vars, ResultKey), s2.(vars := Touch(s2.vars, ResultKey)))
  }

  /** `evaluate` of each node class, on the context and output of `st`. */
  function Eval(n: Node, st: State): (r: Exec)
    ensures Extends(r, st)
    decreases n, 2
  {
    match n
    case IntegerNode(v) => Normal(st.(vars := st.vars[ResultKey := v]))
    case VariableNode(x) =>
      if x in st.vars then Normal(st.(vars := st.vars[ResultKey := st.vars[x]])) else Normal(st)
    case ComparisonNode(_, _, op) =>
      (match EvalOperands(n, st)
       case Failed(e) => e
       case Operands(a, b, s) =>
         var holds := if op == '>' then a > b else a < b;
         Normal(s.(vars := s.vars[ResultKey := if holds then 1 else 0])))
    case ExpressionNode(_, _, op) =>
      (match EvalOperands(n, st)
       case Failed(e) => e
       case Operands(a, b, s) =>
         if op == '+' then
           if InInt32(a + b) then Normal(s.(vars := s.vars[ResultKey := a + b])) else Crash(s, Overflow)
         else if op == '-' then
           if InInt32(a - b) then Normal(s.(vars := s.vars[ResultKey := a - b])) else Crash(s, Overflow)
         else Normal(s))
    case IfElseNode(c, tb, fb) =>
      if c.None? then Crash(st, NullNode)
      else
        (match Eval(c.value, st)
         case Crash(s, w) => Crash(s, w)
         case Normal(s1) =>
           var taken := Get(s1.vars, ResultKey) != 0;
           EvalBranch(n, taken, |if taken then tb else fb|, s1.(vars := Touch(s1.vars, ResultKey))))
    case AssignmentNode(x, e) =>
      if e.None? then Crash(st, NullNode)
      else
        (match Eval(e.value, st)
         case Crash(s, w) => Crash(s, w)
         case Normal(s1) =>
           Normal(s1.(vars := Touch(s1.vars, ResultKey)[x := Get(s1.vars, ResultKey)])))
    case PrintNode(msg, x) =>
      var shown := if x in st.vars then IntToString(st.vars[x]) else "undefined";
      Normal(st.(out := st.out + [msg + " " + shown]))
  }

  function Branch(n: Node, taken: bool): seq<Option<Node>>
    requires n.IfElseNode?
  {
    if taken then n.trueBranch else n.falseBranch
  }

  /** The first `k` iterations of `for (auto& node : branch) node->evaluate(context)`. */
  function EvalBranch(n: Node, taken: bool, k: nat, st: State): (r: Exec)
    requires n.IfElseNode? && k <= |Branch(n, taken)|
    ensures Extends(r, st)
    decreases n, 0, k
  {
    if k == 0 then Normal(st)
    else
      match EvalBranch(n, taken, k - 1, st)
      case Crash(s, w) => Crash(s, w)
      case Normal(s) =>
        var x := Branch(n, taken)[k - 1];
        if x.None? then Crash(s, NullNode) else Eval(x.value, s)
  }

  /** `IfElseNode::evaluate`: the condition, then every node of the branch it selects. */
  method EvaluateIfElse(n: Node, st: State) returns (r: Exec)
    requires n.IfElseNode?
    ensures r == Eval(n, st)
  {
    if n.condition.None? {
      return Crash(st, NullNode);
    }
    var c := Eval(n.condition.value, st);
    if c.Crash? {
      return c;
    }
    var taken := Get(c.st.vars, ResultKey) != 0;
    var ctx := c.st.(vars := Touch(c.st.vars, ResultKey));
    var branch := if taken then n.trueBranch else n.falseBranch;
    r := Normal(ctx);
    for k := 0 to |branch|
      invariant r == EvalBranch(n, taken, k, ctx)
    {
      if r.Normal? {
        var node := branch[k];
        if node.None? {
          r := Crash(r.st, NullNode);
        } else {
          r := Eval(node.value, r.st);
        }
      }
    }
  }

  /** The first `k` iterations of `for (auto& node : program) node->evaluate(context)` in `main`. */
  function Run(program: seq<Node>, st: State): (r: Exec)
    ensures Extends(r, st)
    decreases |program|
  {
    if program == [] then Normal(st)
    else
      match Run(program[..|program| - 1], st)
      case Crash(s, w) => Crash(s, w)
      case Normal(s) => Eval(program[|program| - 1], s)
  }

  /** The evaluation loop of `main`, from an empty context and no output. */
  method Execute(program: seq<Node>) returns (r: Exec)
    ensures r == Run(program, State(map[], []))
  {
    r := Normal(State(map[], []));
    for k := 0 to |program|
      invariant r == Run(program[..k], State(map[], []))
    {
      assert program[..k + 1][..k] == program[..k];
      if r.Normal? {
        if program[k].IfElseNode? {
          r := EvaluateIfElse(program[k], r.st);
        } else {
          r := Eval(program[k], r.st);
        }
      }
    }
    assert program[..|program|] == program;
  }
}
