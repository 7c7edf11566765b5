/**
  What pythontest1.cpp's scanner, parser and evaluator guarantee, proved
  about the model in module PythonTest1.
*/
module PythonTest1Properties {
  import opened Wrappers
  import opened CppStd
  import opened PythonTest1

  // =====================================================================
  // tokenize: the shape of every token
  // =====================================================================

  /** The text of an ID token: a letter other than `i` and `e` (those start keywords), then letters and digits. */
  predicate IdentifierText(v: string) {
    |v| > 0 && IsAlpha(v[0]) && v[0] != 'i' && v[0] != 'e' &&
    forall k :: 0 <= k < |v| ==> IsAlnum(v[k])
  }

  /**
    The tokens `tokenize` can produce, with their exact texts. PRINT,
    LEFT_BRACE, RIGHT_BRACE, COMMENT, EQUALS and NUMBER are never produced.
  */
  predicate WellFormed(tok: Token) {
    var v := tok.value;
    match tok.kind
    case Id => IdentifierText(v)
    case Num => Canonical(v) && DecimalValue(v) <= INT_MAX
    case String => '"' !in v
    case Colon => v == ":" || v == ";"
    case End => v == ""
    case Newline => v == "\\n"
    case Assign => v == "="
    case Plus => v == "+"
    case Minus => v == "-"
    case LeftParen => v == "("
    case RightParen => v == ")"
    case Comma => v == ","
    case GreaterThan => v == ">"
    case LessThan => v == "<"
    case If => v == "if"
    case Else => v == "else"
    case Print => false
    case LeftBrace => false
    case RightBrace => false
    case Comment => false
    case Equals => false
    case Number => false
  }

  lemma StepWellFormed(s: string)
    requires s != []
    ensures forall tok :: tok in Step(s).tokens ==> WellFormed(tok)
  {
    var c := s[0];
    if IsDigit(c) {
      DigitStepWellFormed(s);
    } else if IsAlpha(c) && c != 'i' && c != 'e' {
      WordStepWellFormed(s);
    } else {
      OtherStepWellFormed(s);
    }
  }

  lemma DigitStepWellFormed(s: string)
    requires s != [] && IsDigit(s[0])
    ensures forall tok :: tok in Step(s).tokens ==> WellFormed(tok)
  {
    DigitStepIsNumber(s);
    var v := DecimalValue(s[..DigitRun(s)]);
    if v <= INT_MAX {
      NatToStringCanonical(v);
      NatToStringDecimal(v);
    } else {
      IntMaxTextValue();
    }
  }

  /** A digit is the number case of the `tokenize` loop. */
  lemma DigitStepIsNumber(s: string)
    requires s != [] && IsDigit(s[0])
    ensures Step(s) == NumberLexeme(s)
  {
    var c := s[0];
    assert !IsSpace(c) && SymbolTokens(c).None?;
  }

  lemma WordStepWellFormed(s: string)
    requires s != [] && IsAlpha(s[0]) && s[0] != 'i' && s[0] != 'e'
    ensures forall tok :: tok in Step(s).tokens ==> WellFormed(tok)
  {
    LetterStepIsWord(s);
    var n := 1 + AlnumRun(s[1..]);
    var w := s[..n];
    assert forall k :: 1 <= k < n ==> w[k] == s[1..][k - 1];
    assert IdentifierText(w);
    assert WordLexeme(s).tokens == [Token(Id, w)];
  }

  lemma OtherStepWellFormed(s: string)
    requires s != [] && !IsDigit(s[0]) && !(IsAlpha(s[0]) && s[0] != 'i' && s[0] != 'e')
    ensures forall tok :: tok in Step(s).tokens ==> WellFormed(tok)
  {
    var c := s[0];
    if IsSpace(c) {
    } else if SymbolTokens(c).Some? {
      SymbolTokensWellFormed(c);
    } else if c == '"' {
      assert Step(s) == StringLexeme(s);
    } else if c == '#' {
      assert Step(s) == CommentLexeme(s);
    } else {
      assert Step(s).tokens == [] || Step(s).tokens == [Token(If, "if")] || Step(s).tokens == [Token(Else, "else")];
    }
  }

  lemma SymbolTokensWellFormed(c: char)
    requires SymbolTokens(c).Some?
    ensures forall tok :: tok in SymbolTokens(c).value ==> WellFormed(tok)
  {
  }

  lemma {:induction false} ScanWellFormed(s: string)
    ensures forall tok :: tok in Scan(s) ==> WellFormed(tok)
    decreases |s|
  {
    if s != [] {
      StepWellFormed(s);
      ScanWellFormed(s[Step(s).used..]);
    }
  }

  /** Every token `tokenize` returns is well formed, and the last one is END. */
  lemma LexWellFormed(s: string)
    ensures forall tok :: tok in Lex(s) ==> WellFormed(tok)
    ensures |Lex(s)| > 0 && Lex(s)[|Lex(s)| - 1] == EndToken
  {
    ScanWellFormed(s);
  }

  // =====================================================================
  // tokenize: COLON ":" is always followed by END
  // =====================================================================

  const ColonToken: Token := Token(Colon, ":")

  /** At index `k`: END exactly after COLON ":", and COLON ":" never last. */
  predicate PairedAt(ts: seq<Token>, k: nat)
    requires k < |ts|
  {
    (ts[k].kind == End <==> 0 < k && ts[k - 1] == ColonToken) && (ts[k] == ColonToken ==> k + 1 < |ts|)
  }

  /** Each END token directly follows a COLON ":" token, and each COLON ":" token has one after it. */
  predicate Paired(ts: seq<Token>) {
    forall k :: 0 <= k < |ts| ==> PairedAt(ts, k)
  }

  lemma PairedAppend(a: seq<Token>, b: seq<Token>)
    requires Paired(a) && Paired(b)
    ensures Paired(a + b)
  {
    var ab := a + b;
    forall k | 0 <= k < |ab|
      ensures PairedAt(ab, k)
    {
      if k < |a| {
        assert PairedAt(a, k);
        assert ab[k] == a[k];
        if 0 < k { assert ab[k - 1] == a[k - 1]; }
      } else {
        var j := k - |a|;
        assert PairedAt(b, j);
        assert ab[k] == b[j];
        if j == 0 {
          if 0 < k {
            assert PairedAt(a, |a| - 1);
            assert ab[k - 1] == a[|a| - 1];
          }
        } else {
          assert ab[k - 1] == b[j - 1];
        }
      }
    }
  }

  lemma {:induction false} ScanPaired(s: string)
    ensures Paired(Scan(s))
    decreases |s|
  {
    if s != [] {
      var x := Step(s);
      assert Paired(x.tokens);
      ScanPaired(s[x.used..]);
      PairedAppend(x.tokens, Scan(s[x.used..]));
    }
  }

  /**
    Apart from the final END that `tokenize` appends, a token is END exactly
    when the token before it is COLON ":": the `:` case emits the pair.
  */
  lemma LexColonEnd(s: string)
    ensures forall k :: 0 <= k < |Lex(s)| - 1 ==> (Lex(s)[k].kind == End <==> 0 < k && Lex(s)[k - 1] == ColonToken)
  {
    ScanPaired(s);
    var u := Scan(s);
    assert Lex(s) == u + [EndToken];
    forall k | 0 <= k < |Lex(s)| - 1
      ensures Lex(s)[k].kind == End <==> 0 < k && Lex(s)[k - 1] == ColonToken
    {
      assert PairedAt(u, k);
      assert Lex(s)[k] == u[k];
      if 0 < k { assert Lex(s)[k - 1] == u[k - 1]; }
    }
  }

  // =====================================================================
  // tokenize: newlines
  // =====================================================================

  const NewlineToken: Token := Token(Newline, "\\n")

  /** Text in which no character swallows a newline: no keyword letter, comment, string or digit. */
  predicate Plain(s: string) {
    forall k :: 0 <= k < |s| ==> s[k] != 'i' && s[k] != 'e' && s[k] != '#' && s[k] != '"' && !IsDigit(s[k])
  }

  lemma NoNewline(u: string)
    requires forall k :: 0 <= k < |u| ==> u[k] != '\n'
    ensures multiset(u)['\n'] == 0
  {
    assert '\n' !in u;
  }

  lemma StepNewlines(s: string)
    requires s != []
    ensures multiset(Step(s).tokens)[NewlineToken] <= multiset(s[..Step(s).used])['\n']
    ensures Plain(s) ==> multiset(Step(s).tokens)[NewlineToken] == multiset(s[..Step(s).used])['\n']
  {
    var c := s[0];
    if IsDigit(c) {
      DigitStepNewlines(s);
    } else if IsAlpha(c) && c != 'i' && c != 'e' {
      WordStepNewlines(s);
    } else {
      OtherStepNewlines(s);
    }
  }

  lemma DigitStepNewlines(s: string)
    requires s != [] && IsDigit(s[0])
    ensures multiset(Step(s).tokens)[NewlineToken] == 0
  {
    DigitStepIsNumber(s);
    var x := NumberLexeme(s);
    assert x.tokens == [Token(Num, x.tokens[0].value)];
  }

  lemma WordStepNewlines(s: string)
    requires s != [] && IsAlpha(s[0]) && s[0] != 'i' && s[0] != 'e'
    ensures multiset(Step(s).tokens)[NewlineToken] == 0
    ensures multiset(s[..Step(s).used])['\n'] == 0
  {
    LetterStepIsWord(s);
    var n := 1 + AlnumRun(s[1..]);
    assert WordLexeme(s) == Lexeme([Token(Id, s[..n])], n);
    assert forall k :: 1 <= k < n ==> s[..n][k] == s[1..][k - 1];
    NoNewline(s[..n]);
  }

  lemma OtherStepNewlines(s: string)
    requires s != [] && !IsDigit(s[0]) && !(IsAlpha(s[0]) && s[0] != 'i' && s[0] != 'e')
    ensures multiset(Step(s).tokens)[NewlineToken] <= multiset(s[..Step(s).used])['\n']
    ensures Plain(s) ==> multiset(Step(s).tokens)[NewlineToken] == multiset(s[..Step(s).used])['\n']
  {
    var c := s[0];
    if IsSpace(c) {
      SingleCharStep(s, if c == '\n' then [NewlineToken] else []);
    } else if SymbolTokens(c).Some? {
      SymbolNoNewline(c);
      SingleCharStep(s, SymbolTokens(c).value);
    } else if c == '"' {
      assert Step(s) == StringLexeme(s);
    } else if c == '#' {
      assert Step(s) == CommentLexeme(s);
    } else if c == 'i' || c == 'e' {
      assert Step(s).tokens == [Token(If, "if")] || Step(s).tokens == [Token(Else, "else")];
    } else {
      SingleCharStep(s, []);
    }
  }

  /** A turn of the loop that reads one character `c` and emits `ts`. */
  lemma SingleCharStep(s: string, ts: seq<Token>)
    requires s != [] && Step(s) == Lexeme(ts, 1)
    ensures s[..Step(s).used] == [s[0]]
  {
  }

  lemma SymbolNoNewline(c: char)
    requires SymbolTokens(c).Some?
    ensures NewlineToken !in SymbolTokens(c).value
  {
  }

  lemma {:induction false} ScanNewlines(s: string)
    ensures multiset(Scan(s))[NewlineToken] <= multiset(s)['\n']
    ensures Plain(s) ==> multiset(Scan(s))[NewlineToken] == multiset(s)['\n']
    decreases |s|
  {
    if s != [] {
      var x := Step(s);
      var rest := s[x.used..];
      StepNewlines(s);
      ScanNewlines(rest);
      assert Scan(s) == x.tokens + Scan(rest);
      assert multiset(Scan(s)) == multiset(x.tokens) + multiset(Scan(rest));
      assert s == s[..x.used] + rest;
      assert multiset(s) == multiset(s[..x.used]) + multiset(rest);
      PlainSuffix(s, x.used);
    }
  }

  lemma PlainSuffix(s: string, k: nat)
    requires k <= |s|
    ensures Plain(s) ==> Plain(s[k..])
  {
    assert forall j :: 0 <= j < |s| - k ==> s[k..][j] == s[k + j];
  }

  /**
    Each `'\n'` yields at most one NEWLINE token, and exactly one when no
    keyword letter, comment, string or number can swallow it; other white
    space yields nothing. (By WellFormed, every NEWLINE token is `NewlineToken`.)
  */
  lemma LexNewlines(s: string)
    ensures multiset(Lex(s))[NewlineToken] <= multiset(s)['\n']
    ensures Plain(s) ==> multiset(Lex(s))[NewlineToken] == multiset(s)['\n']
  {
    ScanNewlines(s);
  }

  // =====================================================================
  // tokenize: comments, keywords, numbers, identifiers
  // =====================================================================

  /** `#` discards the rest of its line, newline included, and emits nothing. */
  lemma CommentDiscardsLine(c: string, b: string)
    requires '\n' !in c
    ensures Lex("#" + c + "\n" + b) == Lex(b)
  {
    var s := "#" + c + "\n" + b;
    CommentLineStep(c, b, s);
    assert s[|c| + 2..] == b;
    LexAfterStep(s, |c| + 2);
  }

  lemma CommentLineStep(c: string, b: string, s: string)
    requires '\n' !in c && s == "#" + c + "\n" + b
    ensures Step(s) == Lexeme([], |c| + 2)
  {
    var rest := s[1..];
    assert rest == c + "\n" + b;
    assert rest[|c|] == '\n';
    assert forall j :: 0 <= j < |c| ==> rest[j] == c[j];
    assert IndexOf(rest, '\n') == |c|;
    assert Getline(rest, '\n').1 == |c| + 1;
  }

  /** A comment on the last line swallows the rest of the text. */
  lemma CommentAtEnd(c: string)
    requires '\n' !in c
    ensures Lex("#" + c) == [EndToken]
  {
    var s := "#" + c;
    CommentEndStep(c, s);
    assert s[|s|..] == [];
    LexAfterStep(s, |s|);
  }

  lemma CommentEndStep(c: string, s: string)
    requires '\n' !in c && s == "#" + c
    ensures Step(s) == Lexeme([], |s|)
  {
    assert s[1..] == c;
    assert IndexOf(c, '\n') == |c|;
    assert c[..|c|] == c;
    assert Getline(c, '\n') == (c, |c|);
  }

  /** Any `i` is IF and swallows exactly the one character after it. */
  lemma IfConsumesOne(x: char, b: string)
    ensures Lex(['i', x] + b) == [Token(If, "if")] + Lex(b)
  {
    var s := ['i', x] + b;
    assert s[2..] == b;
  }

  /** Any `e` is ELSE and swallows exactly the three characters after it. */
  lemma ElseConsumesThree(x: string, b: string)
    requires |x| == 3
    ensures Lex("e" + x + b) == [Token(Else, "else")] + Lex(b)
  {
    var s := "e" + x + b;
    assert s[4..] == b;
  }

  /** A maximal digit run with an `int` value becomes one NUM token carrying `std::to_string` of that value. */
  lemma DigitRunLexes(d: string, b: string)
    requires |d| > 0 && AllDigits(d) && (b == [] || !IsDigit(b[0]))
    requires DecimalValue(d) <= INT_MAX
    ensures Lex(d + b) == [Token(Num, NatToString(DecimalValue(d)))] + Lex(b)
  {
    var s := d + b;
    DigitStep(d, b);
    assert s[|d|..] == b;
    LexAfterStep(s, |d|);
  }

  /** When one turn of the loop reads exactly `n` characters, the rest is lexed from there. */
  lemma LexAfterStep(s: string, n: nat)
    requires s != [] && Step(s).used == n
    ensures Lex(s) == Step(s).tokens + Lex(s[n..])
  {
  }

  /**
    A digit run too large for `int` yields NUM "2147483647" and ends the
    scan: the failed extraction leaves the stream failed, so the loop stops.
  */
  lemma DigitRunOverflowStops(d: string, b: string)
    requires |d| > 0 && AllDigits(d) && (b == [] || !IsDigit(b[0]))
    requires DecimalValue(d) > INT_MAX
    ensures Lex(d + b) == [Token(Num, IntMaxText), EndToken]
  {
    var s := d + b;
    DigitStep(d, b);
    var x := Step(s);
    assert x.used == |s|;
    assert x.tokens == [Token(Num, IntMaxText)];
    assert Scan(s[|s|..]) == [];
    assert Scan(s) == x.tokens + Scan(s[x.used..]);
  }

  lemma DigitStep(d: string, b: string)
    requires |d| > 0 && AllDigits(d) && (b == [] || !IsDigit(b[0]))
    ensures DecimalValue(d) <= INT_MAX ==> Step(d + b) == Lexeme([Token(Num, NatToString(DecimalValue(d)))], |d|)
    ensures DecimalValue(d) > INT_MAX ==> Step(d + b) == Lexeme([Token(Num, IntMaxText)], |d + b|)
  {
    var s := d + b;
    assert s[..|d|] == d;
    assert |d| < |s| ==> s[|d|] == b[0];
    DigitRunMaximal(s, |d|);
    DigitStepIsNumber(s);
  }

  /** An identifier followed by a non-alphanumeric character (or nothing) is one ID token. */
  lemma IdentifierLexes(w: string, b: string)
    requires IdentifierText(w) && (b == [] || !IsAlnum(b[0]))
    ensures Lex(w + b) == [Token(Id, w)] + Lex(b)
  {
    var s := w + b;
    var u := s[1..];
    assert forall k :: 0 <= k < |w| - 1 ==> u[k] == w[k + 1];
    assert |w| - 1 < |u| ==> u[|w| - 1] == b[0];
    assert AlnumRun(u) == |w| - 1;
    assert s[0] == w[0];
    assert s[..|w|] == w;
    assert s[|w|..] == b;
  }

  /** A blank: a newline is one NEWLINE token, any other white space nothing. */
  lemma LexBlank(c: char, x: string)
    requires IsSpace(c)
    ensures Lex([c] + x) == (if c == '\n' then [NewlineToken] else []) + Lex(x)
  {
    assert ([c] + x)[1..] == x;
    LexAfterStep([c] + x, 1);
  }

  /** A character of a fixed-token `switch` case is its tokens. */
  lemma LexSymbol(c: char, x: string)
    requires SymbolTokens(c).Some?
    ensures Lex([c] + x) == SymbolTokens(c).value + Lex(x)
  {
    assert ([c] + x)[1..] == x;
    LexAfterStep([c] + x, 1);
  }

  /** A character without a `case` that is neither a letter nor a digit is read and dropped. */
  lemma LexDropped(c: char, x: string)
    requires !IsSpace(c) && SymbolTokens(c).None? && c != '"' && c != '#' && !IsAlnum(c)
    ensures Lex([c] + x) == Lex(x)
  {
    assert ([c] + x)[1..] == x;
    LexAfterStep([c] + x, 1);
  }

  /** `{` and `}` have no `case` in the scanner, so a brace never reaches the parser. */
  lemma BracesDropped(x: string)
    ensures Lex(['{'] + x) == Lex(x) && Lex(['}'] + x) == Lex(x)
  {
    LexDropped('{', x);
    LexDropped('}', x);
  }

  // =====================================================================
  // parseExpression
  // =====================================================================

  /** A NUM, an ID, or nullptr: what every right operand is. */
  predicate IsLeaf(e: Option<Node>) {
    e.None? || e.value.IntegerNode? || e.value.VariableNode?
  }

  /**
    A tree folded to the left over `+ - > <` with no precedence between them,
    whose every right operand is a leaf.
  */
  predicate LeftNested(e: Option<Node>) {
    match e
    case None => true
    case Some(n) =>
      match n
      case IntegerNode(_) => true
      case VariableNode(_) => true
      case ExpressionNode(l, r, op) => (op == '+' || op == '-') && IsLeaf(r) && LeftNested(l)
      case ComparisonNode(l, r, op) => (op == '>' || op == '<') && IsLeaf(r) && LeftNested(l)
      case _ => false
  }

  lemma {:induction false} OperatorLoopShape(t: seq<Token>, i: nat, left: Option<Node>)
    requires i <= |t| && LeftNested(left)
    ensures OperatorLoop(t, i, left).Ok? ==> LeftNested(OperatorLoop(t, i, left).value.0)
    decreases |t| - i
  {
    if i + 1 < |t| && IsOperator(t[i].kind) {
      match OperandAt(t, i + 1) {
        case Fail(_) =>
        case Ok(right) =>
          OperatorLoopShape(t, i + 2, Combine(left, right, FirstChar(t[i].value)));
      }
    }
  }

  /** `parseExpression` builds a left-nested tree whose right operands are single leaves. */
  lemma ExpressionShape(t: seq<Token>, i: nat)
    requires i <= |t|
    ensures ExpressionAt(t, i).Ok? ==> LeftNested(ExpressionAt(t, i).value.0)
  {
    if i < |t| {
      if t[i].kind == Num || t[i].kind == Id {
        match OperandAt(t, i) {
          case Fail(_) =>
          case Ok(left) => OperatorLoopShape(t, i + 1, left);
        }
      } else {
        OperatorLoopShape(t, i, None);
      }
    }
  }

  /**
    From `j` to `k` the tokens alternate operator, operand, operator, ...,
    ending just before a token that is not an operator (or at the end):
    exactly one token is taken as each right operand, whatever it is.
  */
  predicate Alternates(t: seq<Token>, j: nat, k: nat) {
    j <= k <= |t| && (k - j) % 2 == 0 && (k == |t| || !IsOperator(t[k].kind)) &&
    forall m :: j <= m < k && (m - j) % 2 == 0 ==> IsOperator(t[m].kind)
  }

  lemma {:induction false} OperatorLoopExtent(t: seq<Token>, i: nat, left: Option<Node>)
    requires i <= |t|
    ensures OperatorLoop(t, i, left).Ok? ==> Alternates(t, i, OperatorLoop(t, i, left).value.1)
    decreases |t| - i
  {
    if i + 1 < |t| && IsOperator(t[i].kind) {
      match OperandAt(t, i + 1) {
        case Fail(_) =>
        case Ok(right) =>
          var l' := Combine(left, right, FirstChar(t[i].value));
          OperatorLoopExtent(t, i + 2, l');
          if OperatorLoop(t, i + 2, l').Ok? {
            var k := OperatorLoop(t, i + 2, l').value.1;
            assert forall m :: i + 2 <= m < k && (m - (i + 2)) % 2 == 0 ==> IsOperator(t[m].kind);
            forall m | i <= m < k && (m - i) % 2 == 0
              ensures IsOperator(t[m].kind)
            {
              if m != i {
                assert i + 2 <= m && (m - (i + 2)) % 2 == 0;
              }
            }
          }
      }
    }
  }

  /**
    `parseExpression` takes an optional leading NUM or ID, then alternating
    operators and single operand tokens, and leaves `it` at the first token
    after that which is not an operator.
  */
  lemma ExpressionExtent(t: seq<Token>, i: nat)
    requires i < |t|
    ensures ExpressionAt(t, i).Ok? ==>
      Alternates(t, if t[i].kind == Num || t[i].kind == Id then i + 1 else i, ExpressionAt(t, i).value.1)
  {
    if t[i].kind == Num || t[i].kind == Id {
      match OperandAt(t, i) {
        case Fail(_) =>
        case Ok(left) => OperatorLoopExtent(t, i + 1, left);
      }
    } else {
      OperatorLoopExtent(t, i, None);
    }
  }

  // =====================================================================
  // parse
  // =====================================================================

  /** The token kinds the loop of `parse` accepts at the start of a statement. */
  predicate StartsStatement(k: Kind) {
    k == Id || k == If || k == Print || k == Newline || k == End
  }

  /** A syntax error is reported at a token that cannot start a statement. */
  lemma {:induction false} SyntaxErrorAt(t: seq<Token>, i: nat, p: seq<Node>)
    requires i <= |t|
    ensures ParseLoop(t, i, p).SyntaxError? ==>
      i <= ParseLoop(t, i, p).pos < |t| && !StartsStatement(t[ParseLoop(t, i, p).pos].kind)
    decreases |t| - i
  {
    if i < |t| && t[i].kind != End {
      if t[i].kind == Newline {
        SyntaxErrorAt(t, i + 1, p);
      } else if t[i].kind == Id {
        match AssignmentAt(t, i) {
          case Fail(_) =>
          case Ok((s, k)) => SyntaxErrorAt(t, k, if s.Some? then p + [s.value] else p);
        }
      } else if t[i].kind == If {
        match IfElseAt(t, i) {
          case Fail(_) =>
          case Ok((n, k)) => SyntaxErrorAt(t, k, p + [n]);
        }
      } else if t[i].kind == Print {
        match PrintAt(t, i) {
          case Fail(_) =>
          case Ok((s, k)) => SyntaxErrorAt(t, k, if s.Some? then p + [s.value] else p);
        }
      }
    }
  }

  /** The outcome of the loop of `parse` when `p` had been collected before it. */
  function After(p: seq<Node>, o: Outcome): Outcome {
    match o
    case Finished(q) => Finished(p + q)
    case _ => o
  }

  lemma AfterAfter(p: seq<Node>, x: seq<Node>, o: Outcome)
    ensures After(p, After(x, o)) == After(p + x, o)
  {
    if o.Finished? {
      assert p + (x + o.program) == p + x + o.program;
    }
  }

  /**
    The statements collected before `i` only prefix the finished program:
    they never change where the loop ends, and a syntax error or fault
    later on discards them.
  */
  lemma {:induction false} ParseLoopAccumulates(t: seq<Token>, i: nat, p: seq<Node>)
    requires i <= |t|
    ensures ParseLoop(t, i, p) == After(p, ParseLoop(t, i, []))
    decreases |t| - i, 1
  {
    if i < |t| && t[i].kind != End {
      if t[i].kind == Newline {
        ParseLoopAccumulates(t, i + 1, p);
      } else if t[i].kind == Id {
        match AssignmentAt(t, i) {
          case Fail(_) =>
          case Ok((s, k)) =>
            var x := if s.Some? then [s.value] else [];
            assert (if s.Some? then p + [s.value] else p) == p + x;
            assert (if s.Some? then [] + [s.value] else []) == x;
            AccumulatesFrom(t, k, p, x);
        }
      } else if t[i].kind == If {
        match IfElseAt(t, i) {
          case Fail(_) =>
          case Ok((n, k)) =>
            assert [] + [n] == [n];
            AccumulatesFrom(t, k, p, [n]);
        }
      } else if t[i].kind == Print {
        match PrintAt(t, i) {
          case Fail(_) =>
          case Ok((s, k)) =>
            var x := if s.Some? then [s.value] else [];
            assert (if s.Some? then p + [s.value] else p) == p + x;
            assert (if s.Some? then [] + [s.value] else []) == x;
            AccumulatesFrom(t, k, p, x);
        }
      }
    }
  }

  lemma {:induction false} AccumulatesFrom(t: seq<Token>, k: nat, p: seq<Node>, x: seq<Node>)
    requires k <= |t|
    ensures ParseLoop(t, k, p + x) == After(p, ParseLoop(t, k, x))
    decreases |t| - k, 2
  {
    ParseLoopAccumulates(t, k, p + x);
    ParseLoopAccumulates(t, k, x);
    AfterAfter(p, x, ParseLoop(t, k, []));
  }

  // =====================================================================
  // From source text to program
  // =====================================================================

  /** Canonical decimal text within `int` range lexes as one NUM token carrying that text. */
  lemma LexCanonicalNumber(d: string, b: string)
    requires Canonical(d) && DecimalValue(d) <= INT_MAX && (b == [] || !IsDigit(b[0]))
    ensures Lex(d + b) == [Token(Num, d)] + Lex(b)
  {
    DigitRunLexes(d, b);
    CanonicalIsNatToString(d);
  }

  /** The tokens of ` = d`, with `rest` after them. */
  lemma LexAssignTail(d: string, rest: string)
    requires Canonical(d) && DecimalValue(d) <= INT_MAX && (rest == [] || !IsDigit(rest[0]))
    ensures Lex(" = " + d + rest) == [Token(Assign, "="), Token(Num, d)] + Lex(rest)
  {
    var x1 := ['='] + ([' '] + (d + rest));
    assert " = " + d + rest == [' '] + x1;
    LexEqualsNumber(d, rest);
    LexBlank(' ', x1);
  }

  /** The tokens of `= d`, with `rest` after them. */
  lemma LexEqualsNumber(d: string, rest: string)
    requires Canonical(d) && DecimalValue(d) <= INT_MAX && (rest == [] || !IsDigit(rest[0]))
    ensures Lex(['='] + ([' '] + (d + rest))) == [Token(Assign, "="), Token(Num, d)] + Lex(rest)
  {
    LexBlankNumber(d, rest);
    assert SymbolTokens('=') == Some([Token(Assign, "=")]);
    LexSymbol('=', [' '] + (d + rest));
  }

  /** The tokens of ` d`, with `rest` after them. */
  lemma LexBlankNumber(d: string, rest: string)
    requires Canonical(d) && DecimalValue(d) <= INT_MAX && (rest == [] || !IsDigit(rest[0]))
    ensures Lex([' '] + (d + rest)) == [Token(Num, d)] + Lex(rest)
  {
    LexBlank(' ', d + rest);
    LexCanonicalNumber(d, rest);
  }

  /** Two stretches of lexing in a row. */
  lemma Join(l0: seq<Token>, l1: seq<Token>, l2: seq<Token>, u: seq<Token>, v: seq<Token>, uv: seq<Token>)
    requires l0 == u + l1 && l1 == v + l2 && uv == u + v
    ensures l0 == uv + l2
  {
  }

  /** The tokens of `w = d`, with `rest` after them. */
  lemma LexAssignment(w: string, d: string, rest: string)
    requires IdentifierText(w) && Canonical(d) && DecimalValue(d) <= INT_MAX
    requires rest == [] || !IsDigit(rest[0])
    ensures Lex(w + " = " + d + rest) == [Token(Id, w), Token(Assign, "="), Token(Num, d)] + Lex(rest)
  {
    var x0 := " = " + d + rest;
    assert w + " = " + d + rest == w + x0;
    IdentifierLexes(w, x0);
    LexAssignTail(d, rest);
    Join(Lex(w + x0), Lex(x0), Lex(rest), [Token(Id, w)], [Token(Assign, "="), Token(Num, d)],
         [Token(Id, w), Token(Assign, "="), Token(Num, d)]);
  }

  /** `std::to_string` of an `int` value is canonical decimal text of that value. */
  lemma NumberText(n: nat)
    requires n <= INT_MAX
    ensures Canonical(NatToString(n)) && DecimalValue(NatToString(n)) == n
    ensures Stoi(NatToString(n)) == Some(n)
  {
    NatToStringCanonical(n);
    NatToStringDecimal(n);
    StoiOfNatToString(n);
  }

  /** An assignment of a decimal literal parses to one AssignmentNode, which binds the value. */
  lemma AssignmentRoundTrip(w: string, n: nat)
    requires IdentifierText(w) && n <= INT_MAX
    ensures ProgramOf(Lex(w + " = " + NatToString(n))) == Program([AssignmentNode(w, Some(IntegerNode(n)))])
    ensures Run([AssignmentNode(w, Some(IntegerNode(n)))], State(map[], [])) ==
      Normal(State(map[ResultKey := n, w := n], []))
  {
    var digits := NatToString(n);
    NumberText(n);
    LexAssignment(w, digits, "");
    assert w + " = " + digits + "" == w + " = " + digits;
    var t := Lex(w + " = " + digits);
    assert t == [Token(Id, w), Token(Assign, "="), Token(Num, digits), EndToken];
    LiteralAssignmentParses(t, w, n);
    LiteralAssignmentRuns(w, n);
  }

  /** The literal after `=` is an expression ending at END. */
  lemma LiteralExpression(t: seq<Token>, n: nat)
    requires |t| == 4 && t[2] == Token(Num, NatToString(n)) && t[3] == EndToken && n <= INT_MAX
    ensures ExpressionAt(t, 2) == Ok((Some(IntegerNode(n)), 3))
  {
    StoiOfNatToString(n);
    assert OperandAt(t, 2) == Ok(Some(IntegerNode(n)));
    assert OperatorLoop(t, 3, Some(IntegerNode(n))) == Ok((Some(IntegerNode(n)), 3));
  }

  lemma LiteralAssignmentParses(t: seq<Token>, w: string, n: nat)
    requires t == [Token(Id, w), Token(Assign, "="), Token(Num, NatToString(n)), EndToken] && n <= INT_MAX
    ensures ProgramOf(t) == Program([AssignmentNode(w, Some(IntegerNode(n)))])
  {
    var a := AssignmentNode(w, Some(IntegerNode(n)));
    LiteralExpression(t, n);
    assert AssignmentAt(t, 0) == Ok((Some(a), 3));
    assert ParseLoop(t, 3, [a]) == Finished([a]);
    assert ParseLoop(t, 0, []) == Finished([a]);
  }

  lemma LiteralAssignmentRuns(w: string, n: nat)
    requires n <= INT_MAX
    ensures Run([AssignmentNode(w, Some(IntegerNode(n)))], State(map[], [])) ==
      Normal(State(map[ResultKey := n, w := n], []))
  {
    var a := AssignmentNode(w, Some(IntegerNode(n)));
    var st := State(map[], []);
    assert [a][..0] == [];
    assert Run([a], st) == Eval(a, st);
    assert Eval(IntegerNode(n), st) == Normal(State(map[ResultKey := n], []));
  }

  /** The tokens of a call `\nname(`, with `b` after them. */
  lemma LexCall(name: string, b: string)
    requires IdentifierText(name)
    ensures Lex("\n" + name + "(" + b) == [NewlineToken, Token(Id, name), Token(LeftParen, "(")] + Lex(b)
  {
    var x2 := ['('] + b;
    var x1 := name + x2;
    var x0 := ['\n'] + x1;
    assert "\n" + name + "(" + b == x0;
    LexBlank('\n', x1);
    IdentifierLexes(name, x2);
    assert SymbolTokens('(') == Some([Token(LeftParen, "(")]);
    LexSymbol('(', b);
    Join(Lex(x1), Lex(x2), Lex(b), [Token(Id, name)], [Token(LeftParen, "(")],
         [Token(Id, name), Token(LeftParen, "(")]);
    Join(Lex(x0), Lex(x1), Lex(b), [NewlineToken], [Token(Id, name), Token(LeftParen, "(")],
         [NewlineToken, Token(Id, name), Token(LeftParen, "(")]);
  }

  /**
    "print" lexes as an ID, so a print statement leaves `parse` at its
    LEFT_PAREN, a syntax error, and the assignment parsed before it is
    discarded.
  */
  lemma PrintStatementDiscardsProgram(w: string, n: nat, b: string)
    requires IdentifierText(w) && n <= INT_MAX
    ensures ProgramOf(Lex(w + " = " + NatToString(n) + "\nprint(" + b)) == Program([])
  {
    var t := Lex(w + " = " + NatToString(n) + "\nprint(" + b);
    LexAssignThenCall(w, n, b);
    AssignmentThenPrintCall(t, w, n);
    SyntaxErrorIsEmpty(t);
  }

  lemma SyntaxErrorIsEmpty(t: seq<Token>)
    requires ParseLoop(t, 0, []).SyntaxError?
    ensures ProgramOf(t) == Program([])
  {
  }

  /** The tokens of `w = n` followed by `\nprint(` and `b`. */
  lemma LexAssignThenCall(w: string, n: nat, b: string)
    requires IdentifierText(w) && n <= INT_MAX
    ensures var t := Lex(w + " = " + NatToString(n) + "\nprint(" + b);
      |t| >= 6 && t[0] == Token(Id, w) && t[1] == Token(Assign, "=") && t[2] == Token(Num, NatToString(n)) &&
      t[3] == NewlineToken && t[4] == Token(Id, "print") && t[5] == Token(LeftParen, "(")
  {
    var rest := "\nprint(" + b;
    LexNumberAssignment(w, n, rest);
    LexPrintCall(b);
    assert w + " = " + NatToString(n) + "\nprint(" + b == w + " = " + NatToString(n) + rest;
    AssignThenCallTokens(Lex(w + " = " + NatToString(n) + rest), Lex(rest), Lex(b), w, NatToString(n));
  }

  lemma LexNumberAssignment(w: string, n: nat, rest: string)
    requires IdentifierText(w) && n <= INT_MAX && (rest == [] || !IsDigit(rest[0]))
    ensures Lex(w + " = " + NatToString(n) + rest) == [Token(Id, w), Token(Assign, "="), Token(Num, NatToString(n))] + Lex(rest)
  {
    NumberText(n);
    LexAssignment(w, NatToString(n), rest);
  }

  lemma LexPrintCall(b: string)
    ensures Lex("\nprint(" + b) == [NewlineToken, Token(Id, "print"), Token(LeftParen, "(")] + Lex(b)
  {
    assert IdentifierText("print");
    LexCall("print", b);
    assert "\n" + "print" + "(" + b == "\nprint(" + b;
  }

  lemma AssignThenCallTokens(t: seq<Token>, l1: seq<Token>, l2: seq<Token>, w: string, d: string)
    requires t == [Token(Id, w), Token(Assign, "="), Token(Num, d)] + l1
    requires l1 == [NewlineToken, Token(Id, "print"), Token(LeftParen, "(")] + l2
    ensures |t| >= 6 && t[0] == Token(Id, w) && t[1] == Token(Assign, "=") && t[2] == Token(Num, d) &&
      t[3] == NewlineToken && t[4] == Token(Id, "print") && t[5] == Token(LeftParen, "(")
  {
  }

  lemma AssignmentThenPrintCall(t: seq<Token>, w: string, n: nat)
    requires n <= INT_MAX && |t| >= 6
    requires t[0] == Token(Id, w) && t[1] == Token(Assign, "=") && t[2] == Token(Num, NatToString(n))
    requires t[3] == NewlineToken && t[4] == Token(Id, "print") && t[5] == Token(LeftParen, "(")
    ensures ParseLoop(t, 0, []) == SyntaxError(5)
  {
    var a := AssignmentNode(w, Some(IntegerNode(n)));
    assert AssignmentAt(t, 0) == Ok((Some(a), 3)) by {
      assert OperandAt(t, 2) == Ok(Some(IntegerNode(n))) by { StoiOfNatToString(n); }
      assert OperatorLoop(t, 3, Some(IntegerNode(n))) == Ok((Some(IntegerNode(n)), 3));
    }
    assert ParseLoop(t, 3, [a]) == SyntaxError(5) by {
      assert AssignmentAt(t, 4) == Ok((None, 5));
      assert ParseLoop(t, 5, [a]) == SyntaxError(5);
      assert ParseLoop(t, 4, [a]) == SyntaxError(5);
    }
    assert [] + [a] == [a];
  }

  // =====================================================================
  // evaluate
  // =====================================================================

  /** The node classes `parseExpression` builds, with a null child wherever it may leave one. */
  predicate IsExpression(e: Option<Node>) {
    match e
    case None => true
    case Some(n) =>
      match n
      case IntegerNode(_) => true
      case VariableNode(_) => true
      case ExpressionNode(l, r, _) => IsExpression(l) && IsExpression(r)
      case ComparisonNode(l, r, _) => IsExpression(l) && IsExpression(r)
      case _ => false
  }

  /**
    The value of an expression tree, defined without the context: `env` is
    the context apart from the result slot and `acc` the value last left in
    the slot. A variable is its binding, or `acc` when it is unbound (or is
    the slot itself); `+` and `-` are undefined outside `int`; any other
    operator of an ExpressionNode leaves the right operand's value; a
    comparison other than `>` is `<`. None where behaviour is undefined.
  */
  function Value(e: Option<Node>, env: map<string, int>, acc: int): Option<int> {
    match e
    case None => None
    case Some(n) =>
      match n
      case IntegerNode(v) => Some(v)
      case VariableNode(x) => Some(if x != ResultKey && x in env then env[x] else acc)
      case ExpressionNode(l, r, op) =>
        (match Value(l, env, acc)
         case None => None
         case Some(a) =>
           match Value(r, env, a)
           case None => None
           case Some(b) =>
             if op == '+' then (if InInt32(a + b) then Some(a + b) else None)
             else if op == '-' then (if InInt32(a - b) then Some(a - b) else None)
             else Some(b))
      case ComparisonNode(l, r, op) =>
        (match Value(l, env, acc)
         case None => None
         case Some(a) =>
           match Value(r, env, a)
           case None => None
           case Some(b) => Some(if (if op == '>' then a > b else a < b) then 1 else 0))
      case _ => None
  }

  lemma TouchOffKey(m: map<string, int>, k: string)
    ensures Touch(m, k) - {k} == m - {k} && Get(Touch(m, k), k) == Get(m, k) && k in Touch(m, k)
  {
    assert Touch(m, k) - {k} == m - {k};
  }

  lemma UpdateOffKey(m: map<string, int>, k: string, v: int)
    ensures m[k := v] - {k} == m - {k} && Get(m[k := v], k) == v
  {
    assert m[k := v] - {k} == m - {k};
  }

  /** Two contexts that agree apart from `k` are equal once `k` is set. */
  lemma SameOffKey(m1: map<string, int>, m2: map<string, int>, k: string, v: int)
    requires m1 - {k} == m2 - {k}
    ensures m1[k := v] == m2[k := v]
  {
    var a, b := m1[k := v], m2[k := v];
    forall y | y in a
      ensures y in b && a[y] == b[y]
    {
      if y != k {
        assert y in m1 - {k};
      }
    }
    forall y | y in b
      ensures y in a
    {
      if y != k {
        assert y in m2 - {k};
      }
    }
  }

  /**
    Evaluating an expression tree leaves the output and every binding but
    the result slot alone, is defined exactly when `Value` is, and then
    leaves `Value` in the slot.
  */
  lemma {:induction false} ExpressionSemantics(n: Node, st: State)
    requires IsExpression(Some(n))
    ensures Eval(n, st).st.out == st.out
    ensures Eval(n, st).st.vars - {ResultKey} == st.vars - {ResultKey}
    ensures Eval(n, st).Normal? <==> Value(Some(n), st.vars - {ResultKey}, Get(st.vars, ResultKey)).Some?
    ensures Eval(n, st).Normal? ==>
      Get(Eval(n, st).st.vars, ResultKey) == Value(Some(n), st.vars - {ResultKey}, Get(st.vars, ResultKey)).value
    decreases n, 2
  {
    var env := st.vars - {ResultKey};
    match n {
      case IntegerNode(v) =>
        UpdateOffKey(st.vars, ResultKey, v);
      case VariableNode(x) =>
        if x in st.vars {
          UpdateOffKey(st.vars, ResultKey, st.vars[x]);
          if x != ResultKey {
            assert x in env;
          }
        } else {
          assert x !in env;
        }
      case ExpressionNode(_, _, _) =>
        BinarySemantics(n, st);
      case ComparisonNode(_, _, _) =>
        BinarySemantics(n, st);
    }
  }

  /** ExpressionSemantics for the two binary node classes. */
  lemma {:induction false} BinarySemantics(n: Node, st: State)
    requires (n.ExpressionNode? || n.ComparisonNode?) && IsExpression(Some(n))
    ensures Eval(n, st).st.out == st.out
    ensures Eval(n, st).st.vars - {ResultKey} == st.vars - {ResultKey}
    ensures Eval(n, st).Normal? <==> Value(Some(n), st.vars - {ResultKey}, Get(st.vars, ResultKey)).Some?
    ensures Eval(n, st).Normal? ==>
      Get(Eval(n, st).st.vars, ResultKey) == Value(Some(n), st.vars - {ResultKey}, Get(st.vars, ResultKey)).value
    decreases n, 1
  {
    OperandsSemantics(n, st);
    match EvalOperands(n, st) {
      case Failed(e) =>
      case Operands(a, b, s) =>
        if n.ExpressionNode? {
          if n.op == '+' || n.op == '-' {
            UpdateOffKey(s.vars, ResultKey, if n.op == '+' then a + b else a - b);
          }
        } else {
          var holds := if n.op == '>' then a > b else a < b;
          UpdateOffKey(s.vars, ResultKey, if holds then 1 else 0);
        }
    }
  }

  /** Both operands of a binary node, evaluated left to right through the result slot. */
  lemma {:induction false} OperandsSemantics(n: Node, st: State)
    requires n.ExpressionNode? || n.ComparisonNode?
    requires IsExpression(n.left) && IsExpression(n.right)
    ensures var env := st.vars - {ResultKey};
      var o := EvalOperands(n, st);
      var va := Value(n.left, env, Get(st.vars, ResultKey));
      (o.Failed? ==> o.e.st.out == st.out && o.e.st.vars - {ResultKey} == env &&
                     (va.None? || Value(n.right, env, va.value).None?)) &&
      (o.Operands? ==> o.st.out == st.out && o.st.vars - {ResultKey} == env &&
                       va == Some(o.a) && Value(n.right, env, o.a) == Some(o.b))
    decreases n, 0
  {
    var env := st.vars - {ResultKey};
    if n.left.Some? {
      ExpressionSemantics(n.left.value, st);
      match Eval(n.left.value, st) {
        case Crash(_, _) =>
        case Normal(s1) =>
          TouchOffKey(s1.vars, ResultKey);
          var s1' := s1.(vars := Touch(s1.vars, ResultKey));
          if n.right.Some? {
            ExpressionSemantics(n.right.value, s1');
            match Eval(n.right.value, s1') {
              case Crash(_, _) =>
              case Normal(s2) =>
                TouchOffKey(s2.vars, ResultKey);
            }
          }
      }
    }
  }

  /**
    An assignment of an expression binds the variable, and the result slot,
    to the expression's value; it is undefined exactly when the value is.
  */
  lemma AssignmentSemantics(x: string, e: Node, st: State)
    requires IsExpression(Some(e))
    ensures var v := Value(Some(e), st.vars - {ResultKey}, Get(st.vars, ResultKey));
      (Eval(AssignmentNode(x, Some(e)), st).Normal? <==> v.Some?) &&
      (v.Some? ==> Eval(AssignmentNode(x, Some(e)), st) ==
                   Normal(State(st.vars[ResultKey := v.value][x := v.value], st.out)))
  {
    ExpressionSemantics(e, st);
    match Eval(e, st) {
      case Crash(_, _) =>
      case Normal(s1) =>
        var v := Get(s1.vars, ResultKey);
        assert Touch(s1.vars, ResultKey) == s1.vars[ResultKey := v];
        SameOffKey(s1.vars, st.vars, ResultKey, v);
    }
  }

  /** A block of statements run in order, stopping at the first undefined step. */
  function RunBlock(ns: seq<Option<Node>>, st: State): Exec
    decreases |ns|
  {
    if ns == [] then Normal(st)
    else
      match RunBlock(ns[..|ns| - 1], st)
      case Crash(s, w) => Crash(s, w)
      case Normal(s) =>
        var x := ns[|ns| - 1];
        if x.None? then Crash(s, NullNode) else Eval(x.value, s)
  }

  lemma {:induction false} EvalBranchIsRunBlock(n: Node, taken: bool, k: nat, st: State)
    requires n.IfElseNode? && k <= |Branch(n, taken)|
    ensures EvalBranch(n, taken, k, st) == RunBlock(Branch(n, taken)[..k], st)
    decreases k
  {
    if k > 0 {
      EvalBranchIsRunBlock(n, taken, k - 1, st);
      assert Branch(n, taken)[..k][..k - 1] == Branch(n, taken)[..k - 1];
    }
  }

  /**
    An if-else evaluates its condition, then runs exactly one branch (the
    true one when the condition's value is not 0) from the context with the
    value in the result slot; a null or undefined condition is undefined.
  */
  lemma IfElseRunsOneBranch(n: Node, st: State)
    requires n.IfElseNode? && IsExpression(n.condition)
    ensures var v := Value(n.condition, st.vars - {ResultKey}, Get(st.vars, ResultKey));
      (v.None? ==> Eval(n, st).Crash?) &&
      (v.Some? ==> Eval(n, st) ==
                   RunBlock(if v.value != 0 then n.trueBranch else n.falseBranch,
                            State(st.vars[ResultKey := v.value], st.out)))
  {
    if n.condition.Some? {
      ExpressionSemantics(n.condition.value, st);
      match Eval(n.condition.value, st) {
        case Crash(_, _) =>
        case Normal(s1) =>
          var v := Get(s1.vars, ResultKey);
          var taken := v != 0;
          assert Touch(s1.vars, ResultKey) == s1.vars[ResultKey := v];
          SameOffKey(s1.vars, st.vars, ResultKey, v);
          var b := Branch(n, taken);
          EvalBranchIsRunBlock(n, taken, |b|, s1.(vars := Touch(s1.vars, ResultKey)));
          assert b[..|b|] == b;
      }
    }
  }

  /** Running `p + q` runs `p`, then `q` from where `p` left off. */
  lemma {:induction false} RunAppend(p: seq<Node>, q: seq<Node>, st: State)
    ensures Run(p + q, st) == (match Run(p, st) case Crash(s, w) => Crash(s, w) case Normal(s) => Run(q, s))
    decreases |q|
  {
    if q == [] {
      assert p + q == p;
    } else {
      var q' := q[..|q| - 1];
      RunAppend(p, q', st);
      assert (p + q)[..|p + q| - 1] == p + q';
      assert (p + q)[|p + q| - 1] == q[|q| - 1];
    }
  }

  /** PRINT ( STRING , ID ) after a program writes one more line: the message, a space, and the variable or "undefined". */
  lemma RunPrintAfter(p: seq<Node>, m: string, x: string, st: State)
    ensures Run(p + [PrintNode(m, x)], st) ==
      (match Run(p, st)
       case Crash(s, w) => Crash(s, w)
       case Normal(s) => Normal(State(s.vars, s.out + [m + " " + (if x in s.vars then IntToString(s.vars[x]) else "undefined")])))
  {
    RunAppend(p, [PrintNode(m, x)], st);
    match Run(p, st) {
      case Crash(_, _) =>
      case Normal(s) => assert [PrintNode(m, x)][..0] == [];
    }
  }

  // =====================================================================
  // parse, then evaluate
  // =====================================================================

  lemma {:induction false} LeftNestedIsExpression(e: Option<Node>)
    requires LeftNested(e)
    ensures IsExpression(e)
    decreases e
  {
    if e.Some? && (e.value.ExpressionNode? || e.value.ComparisonNode?) {
      LeftNestedIsExpression(e.value.left);
    }
  }

  /** The statements of a brace block: nullptr, or an assignment of an expression. */
  predicate IsBlock(ns: seq<Option<Node>>) {
    forall k :: 0 <= k < |ns| ==> ns[k].None? || (ns[k].value.AssignmentNode? && IsExpression(ns[k].value.expression))
  }

  /**
    The top-level nodes `parse` builds, in the shape AssignmentSemantics and
    IfElseRunsOneBranch take: assignments of expressions, if-elses with an
    expression as condition and blocks as branches, and prints.
  */
  predicate IsStatement(n: Node) {
    match n
    case AssignmentNode(_, e) => IsExpression(e)
    case IfElseNode(c, tb, fb) => IsExpression(c) && IsBlock(tb) && IsBlock(fb)
    case PrintNode(_, _) => true
    case _ => false
  }

  /** The `ID ASSIGN expression` path builds an assignment of an expression. */
  lemma ParsedAssignmentIsExpression(t: seq<Token>, i: nat)
    requires i < |t| && t[i].kind == Id
    ensures AssignmentAt(t, i).Ok? && AssignmentAt(t, i).value.0.Some? ==>
      IsStatement(AssignmentAt(t, i).value.0.value) && AssignmentAt(t, i).value.0.value.AssignmentNode?
  {
    if i + 1 < |t| && t[i + 1].kind == Assign {
      ExpressionShape(t, i + 2);
      if ExpressionAt(t, i + 2).Ok? {
        LeftNestedIsExpression(ExpressionAt(t, i + 2).value.0);
      }
    }
  }

  lemma {:induction false} BraceLoopIsBlock(t: seq<Token>, i: nat, acc: seq<Option<Node>>)
    requires i <= |t| && IsBlock(acc)
    ensures BraceLoop(t, i, acc).Ok? ==> IsBlock(BraceLoop(t, i, acc).value.0)
    decreases |t| - i
  {
    if i < |t| && t[i].kind != RightBrace {
      match StatementAt(t, i) {
        case Fail(_) =>
        case Ok((s, j)) =>
          if j != i {
            if t[i].kind == Id {
              ParsedAssignmentIsExpression(t, i);
            }
            assert IsBlock(acc + [s]) by {
              forall k | 0 <= k < |acc + [s]|
                ensures (acc + [s])[k].None? ||
                        ((acc + [s])[k].value.AssignmentNode? && IsExpression((acc + [s])[k].value.expression))
              {
                if k < |acc| { assert (acc + [s])[k] == acc[k]; }
              }
            }
            BraceLoopIsBlock(t, j, acc + [s]);
          }
      }
    }
  }

  lemma BranchIsBlock(t: seq<Token>, i: nat)
    requires i <= |t|
    ensures BranchAt(t, i).Ok? ==> IsBlock(BranchAt(t, i).value.0)
  {
    if i < |t| && t[i].kind == LeftBrace {
      BraceLoopIsBlock(t, i + 1, []);
    }
  }

  lemma ElseIsStatement(t: seq<Token>, cond: Option<Node>, tb: seq<Option<Node>>, k: nat)
    requires k <= |t| && IsExpression(cond) && IsBlock(tb)
    ensures ElseAt(t, cond, tb, k).Ok? ==> IsStatement(ElseAt(t, cond, tb, k).value.0)
  {
    if k < |t| && t[k].kind == Else {
      BranchIsBlock(t, k + 1);
    }
  }

  /** An if-else parsed at `i` has an expression as condition and blocks as branches. */
  lemma ParsedIfElseIsStatement(t: seq<Token>, i: nat)
    requires i < |t|
    ensures IfElseAt(t, i).Ok? ==> IsStatement(IfElseAt(t, i).value.0)
  {
    ExpressionShape(t, i + 1);
    match ExpressionAt(t, i + 1) {
      case Fail(_) =>
      case Ok((c, k)) =>
        LeftNestedIsExpression(c);
        BranchIsBlock(t, k);
        match BranchAt(t, k) {
          case Fail(_) =>
          case Ok((tb, k')) => ElseIsStatement(t, c, tb, k');
        }
    }
  }

  lemma {:induction false} ParseLoopIsStatements(t: seq<Token>, i: nat, program: seq<Node>)
    requires i <= |t|
    requires forall k :: 0 <= k < |program| ==> IsStatement(program[k])
    ensures ParseLoop(t, i, program).Finished? ==>
      forall k :: 0 <= k < |ParseLoop(t, i, program).program| ==> IsStatement(ParseLoop(t, i, program).program[k])
    decreases |t| - i
  {
    if i < |t| && t[i].kind != End {
      if t[i].kind == Newline {
        ParseLoopIsStatements(t, i + 1, program);
      } else if t[i].kind == Id {
        ParsedAssignmentIsExpression(t, i);
        match AssignmentAt(t, i) {
          case Fail(_) =>
          case Ok((s, k)) => ParseLoopIsStatements(t, k, if s.Some? then program + [s.value] else program);
        }
      } else if t[i].kind == If {
        ParsedIfElseIsStatement(t, i);
        match IfElseAt(t, i) {
          case Fail(_) =>
          case Ok((n, k)) => ParseLoopIsStatements(t, k, program + [n]);
        }
      } else if t[i].kind == Print {
        match PrintAt(t, i) {
          case Fail(_) =>
          case Ok((s, k)) => ParseLoopIsStatements(t, k, if s.Some? then program + [s.value] else program);
        }
      }
    }
  }

  /**
    Every node of a parsed program is one AssignmentSemantics,
    IfElseRunsOneBranch or RunPrintAfter describes.
  */
  lemma ParsedProgramIsStatements(t: seq<Token>)
    ensures ProgramOf(t).Program? ==> forall k :: 0 <= k < |ProgramOf(t).nodes| ==> IsStatement(ProgramOf(t).nodes[k])
  {
    ParseLoopIsStatements(t, 0, []);
  }
}
