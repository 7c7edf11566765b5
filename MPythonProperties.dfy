/**
  What mpython.cpp's scanner, parser and evaluator guarantee, proved about
  the model in module MPython.
*/
module MPythonProperties {
  import opened Wrappers
  import opened CppStd
  import opened MPython

  // =====================================================================
  // tokenize: the shape of every token
  // =====================================================================

  /** The text of an identifier: a letter, then letters and digits. */
  predicate IdentifierText(v: string) {
    |v| > 0 && IsAlpha(v[0]) && forall k :: 0 <= k < |v| ==> IsAlnum(v[k])
  }

  /**
    The tokens the loop of `tokenize` can push, with their exact texts.
    END is pushed only after the loop; EQUALS, NUMBER and NEWLINE never.
  */
  predicate WellFormed(tok: Token) {
    var v := tok.value;
    match tok.kind
    case Id => IdentifierText(v) && v != "print"
    case Print => v == "print"
    case Num => Canonical(v) && DecimalValue(v) <= INT_MAX
    case String => '"' !in v
    case Comment => |v| > 0 && v[0] == '#' && '\n' !in v
    case Assign => v == "="
    case Plus => v == "+"
    case LeftParen => v == "("
    case RightParen => v == ")"
    case Comma => v == ","
    case Semicolon => v == ";"
    case _ => false
  }

  lemma StepWellFormed(s: string)
    requires s != []
    ensures forall tok :: tok in Step(s).tokens ==> WellFormed(tok)
  {
    var c := s[0];
    if IsSpace(c) || SymbolToken(c).Some? {
    } else if c == '"' {
      assert Step(s) == StringLexeme(s);
    } else if c == '#' {
      assert Step(s) == CommentLexeme(s);
      var (comment, n) := Getline(s[1..], '\n');
      assert '\n' !in "#" + comment;
    } else if IsDigit(c) {
      DigitStepIsNumber(s);
      var v := DecimalValue(s[..DigitRun(s)]);
      if v <= INT_MAX {
        NatToStringCanonical(v);
        NatToStringDecimal(v);
      } else {
        IntMaxTextValue();
      }
    } else if IsAlpha(c) {
      LetterStepIsWord(s);
      var n := 1 + AlnumRun(s[1..]);
      var w := s[..n];
      assert forall k :: 1 <= k < n ==> w[k] == s[1..][k - 1];
      assert IdentifierText(w);
    }
  }

  /** A digit is the number case of the `tokenize` loop. */
  lemma DigitStepIsNumber(s: string)
    requires s != [] && IsDigit(s[0])
    ensures Step(s) == NumberLexeme(s)
  {
    var c := s[0];
    assert !IsSpace(c) && SymbolToken(c).None?;
  }

  lemma {:induction false} ScanWellFormed(s: string)
    ensures forall tok :: tok in Scan(s) ==> WellFormed(tok)
    decreases |s|
  {
    if s != [] {
      StepWellFormed(s);
      ScanWellFormed(s[Step(s).used..]);
    }
  }

  /** Every token `tokenize` returns but the last is well formed (so not END), and the last one is END. */
  lemma LexWellFormed(s: string)
    ensures |Lex(s)| > 0 && Lex(s)[|Lex(s)| - 1] == EndToken
    ensures forall k :: 0 <= k < |Lex(s)| - 1 ==> WellFormed(Lex(s)[k]) && Lex(s)[k].kind != End
  {
    ScanWellFormed(s);
    var t := Lex(s);
    forall k | 0 <= k < |t| - 1
      ensures WellFormed(t[k]) && t[k].kind != End
    {
      assert t[k] in Scan(s);
    }
  }

  // =====================================================================
  // tokenize: one lexeme at a time
  // =====================================================================

  /** When one turn of the loop reads exactly `n` characters, the rest is lexed from there. */
  lemma LexAfterStep(s: string, n: nat)
    requires s != [] && Step(s).used == n
    ensures Lex(s) == Step(s).tokens + Lex(s[n..])
  {
    var emitted := Step(s).tokens;
    assert Scan(s) == emitted + Scan(s[n..]);
    Associative(emitted, Scan(s[n..]), [EndToken]);
  }

  /** White space, a newline included, contributes nothing. */
  lemma LexBlank(c: char, x: string)
    requires IsSpace(c)
    ensures Lex([c] + x) == Lex(x)
  {
    assert ([c] + x)[1..] == x;
    LexAfterStep([c] + x, 1);
  }

  /** A character of a fixed-token `switch` case is its token. */
  lemma LexSymbol(c: char, x: string)
    requires SymbolToken(c).Some?
    ensures Lex([c] + x) == [SymbolToken(c).value] + Lex(x)
  {
    assert ([c] + x)[1..] == x;
    LexAfterStep([c] + x, 1);
  }

  /** A character with no `case` that is neither a digit nor a letter, such as `-`, is read and dropped. */
  lemma LexDropped(c: char, x: string)
    requires !IsSpace(c) && SymbolToken(c).None? && c != '"' && c != '#' && !IsAlnum(c)
    ensures Lex([c] + x) == Lex(x)
  {
    assert ([c] + x)[1..] == x;
    LexAfterStep([c] + x, 1);
  }

  /** An identifier followed by a non-alphanumeric character (or nothing) is one token: PRINT for `print`, ID otherwise. */
  lemma IdentifierLexes(w: string, b: string)
    requires IdentifierText(w) && (b == [] || !IsAlnum(b[0]))
    ensures Lex(w + b) == [WordToken(w)] + Lex(b)
  {
    var s := w + b;
    IdentifierStep(w, b, s);
    assert s[|w|..] == b;
    LexAfterStep(s, |w|);
  }

  lemma IdentifierStep(w: string, b: string, s: string)
    requires IdentifierText(w) && (b == [] || !IsAlnum(b[0])) && s == w + b
    ensures Step(s) == Lexeme([WordToken(w)], |w|)
  {
    var u := s[1..];
    assert forall k :: 0 <= k < |w| - 1 ==> u[k] == w[k + 1];
    assert |w| - 1 < |u| ==> u[|w| - 1] == b[0];
    assert AlnumRun(u) == |w| - 1;
    assert s[0] == w[0];
    assert s[..|w|] == w;
    LetterStepIsWord(s);
  }

  lemma DigitStep(d: string, b: string)
    requires |d| > 0 && AllDigits(d) && (b == [] || !IsDigit(b[0]))
    ensures DecimalValue(d) <= INT_MAX ==> Step(d + b) == Lexeme([Token(Num, NatToString(DecimalValue(d)))], |d|)
    ensures DecimalValue(d) > INT_MAX ==> Step(d + b) == Lexeme([Token(Num, IntMaxText)], |d + b|)
  {
    var s := d + b;
    assert s[..|d|] == d;
    assert |d| < |s| ==> s[|d|] == b[0];
    DigitRunMaximal(s, |d|);
    DigitStepIsNumber(s);
  }

  /** A maximal digit run with an `int` value becomes one NUM token carrying `std::to_string` of that value. */
  lemma DigitRunLexes(d: string, b: string)
    requires |d| > 0 && AllDigits(d) && (b == [] || !IsDigit(b[0]))
    requires DecimalValue(d) <= INT_MAX
    ensures Lex(d + b) == [Token(Num, NatToString(DecimalValue(d)))] + Lex(b)
  {
    var s := d + b;
    DigitStep(d, b);
    assert s[|d|..] == b;
    LexAfterStep(s, |d|);
  }

  /**
    A digit run too large for `int` yields NUM "2147483647" and ends the
    scan: the failed extraction leaves the stream failed, so the loop stops.
  */
  lemma DigitRunOverflowStops(d: string, b: string)
    requires |d| > 0 && AllDigits(d) && (b == [] || !IsDigit(b[0]))
    requires DecimalValue(d) > INT_MAX
    ensures Lex(d + b) == [Token(Num, IntMaxText), EndToken]
  {
    var s := d + b;
    DigitStep(d, b);
    var x := Step(s);
    assert x.used == |s|;
    assert x.tokens == [Token(Num, IntMaxText)];
    assert Scan(s[|s|..]) == [];
    assert Scan(s) == x.tokens + Scan(s[x.used..]);
  }

  /** Canonical decimal text within `int` range lexes as one NUM token carrying that text. */
  lemma LexCanonicalNumber(d: string, b: string)
    requires Canonical(d) && DecimalValue(d) <= INT_MAX && (b == [] || !IsDigit(b[0]))
    ensures Lex(d + b) == [Token(Num, d)] + Lex(b)
  {
    DigitRunLexes(d, b);
    CanonicalIsNatToString(d);
  }

  /** A string literal up to its closing quote is one STRING token without the quotes. */
  lemma StringLexes(m: string, b: string)
    requires '"' !in m
    ensures Lex("\"" + m + "\"" + b) == [Token(String, m)] + Lex(b)
  {
    var s := "\"" + m + "\"" + b;
    StringStep(m, b, s);
    assert s[|m| + 2..] == b;
    LexAfterStep(s, |m| + 2);
  }

  lemma StringStep(m: string, b: string, s: string)
    requires '"' !in m && s == "\"" + m + "\"" + b
    ensures Step(s) == Lexeme([Token(String, m)], |m| + 2)
  {
    assert Step(s) == StringLexeme(s);
    var rest := s[1..];
    assert rest == m + "\"" + b;
    assert rest[|m|] == '"';
    assert forall j :: 0 <= j < |m| ==> rest[j] == m[j];
    assert IndexOf(rest, '"') == |m|;
    assert rest[..|m|] == m;
    assert Getline(rest, '"') == (m, |m| + 1);
  }

  /** A comment up to a newline is one COMMENT token holding `#` and the text; the newline is read with it. */
  lemma CommentLexes(c: string, b: string)
    requires '\n' !in c
    ensures Lex("#" + c + "\n" + b) == [Token(Comment, "#" + c)] + Lex(b)
  {
    var s := "#" + c + "\n" + b;
    CommentStep(c, b, s);
    assert s[|c| + 2..] == b;
    LexAfterStep(s, |c| + 2);
  }

  lemma CommentStep(c: string, b: string, s: string)
    requires '\n' !in c && s == "#" + c + "\n" + b
    ensures Step(s) == Lexeme([Token(Comment, "#" + c)], |c| + 2)
  {
    assert Step(s) == CommentLexeme(s);
    var rest := s[1..];
    assert rest == c + "\n" + b;
    assert rest[|c|] == '\n';
    assert forall j :: 0 <= j < |c| ==> rest[j] == c[j];
    assert IndexOf(rest, '\n') == |c|;
    assert rest[..|c|] == c;
    assert Getline(rest, '\n') == (c, |c| + 1);
  }

  /** Appending token sequences is associative. */
  lemma Associative(u: seq<Token>, v: seq<Token>, w: seq<Token>)
    ensures (u + v) + w == u + (v + w)
  {
  }

  /** A stretch of lexing that ends the text. */
  lemma JoinLast(l0: seq<Token>, l1: seq<Token>, u: seq<Token>, v: seq<Token>, uv: seq<Token>)
    requires l0 == u + l1 && l1 == v && uv == u + v
    ensures l0 == uv
  {
  }

  /** Two stretches of lexing in a row. */
  lemma Join(l0: seq<Token>, l1: seq<Token>, l2: seq<Token>, u: seq<Token>, v: seq<Token>, uv: seq<Token>)
    requires l0 == u + l1 && l1 == v + l2 && uv == u + v
    ensures l0 == uv + l2
  {
  }

  // =====================================================================
  // tokenize: whole statements
  // =====================================================================

  /** A number after a blank, with `rest` after it. */
  lemma LexSpacedNumber(d: string, rest: string)
    requires Canonical(d) && DecimalValue(d) <= INT_MAX && (rest == [] || !IsDigit(rest[0]))
    ensures Lex([' '] + (d + rest)) == [Token(Num, d)] + Lex(rest)
  {
    LexBlank(' ', d + rest);
    LexCanonicalNumber(d, rest);
  }

  /** The text ` = d` followed by `rest`, one character at a time. */
  lemma AssignTailText(d: string, rest: string)
    ensures " = " + d + rest == [' '] + (['='] + ([' '] + (d + rest)))
  {
  }

  /** The tokens of ` = d`, with `rest` after them. */
  lemma LexAssignTail(d: string, rest: string)
    requires Canonical(d) && DecimalValue(d) <= INT_MAX && (rest == [] || !IsDigit(rest[0]))
    ensures Lex(" = " + d + rest) == [Token(Assign, "="), Token(Num, d)] + Lex(rest)
  {
    var x2 := [' '] + (d + rest);
    var x1 := ['='] + x2;
    LexSpacedNumber(d, rest);
    LexSymbol('=', x2);
    LexBlank(' ', x1);
    AssignTailText(d, rest);
    Join(Lex([' '] + x1), Lex(x2), Lex(rest), [Token(Assign, "=")], [Token(Num, d)],
         [Token(Assign, "="), Token(Num, d)]);
  }

  /** Appending is associative, for the texts of an assignment. */
  lemma AssignmentText(w: string, d: string, rest: string)
    ensures w + " = " + d + rest == w + (" = " + d + rest)
  {
  }

  /** An assignment `w = d`, with `rest` after it: ID (or PRINT), ASSIGN, NUM. */
  lemma LexAssignment(w: string, d: string, rest: string)
    requires IdentifierText(w) && Canonical(d) && DecimalValue(d) <= INT_MAX
    requires rest == [] || !IsDigit(rest[0])
    ensures Lex(w + " = " + d + rest) == [WordToken(w), Token(Assign, "="), Token(Num, d)] + Lex(rest)
  {
    var x0 := " = " + d + rest;
    LexAssignTail(d, rest);
    IdentifierLexes(w, x0);
    AssignmentText(w, d, rest);
    Join(Lex(w + x0), Lex(x0), Lex(rest), [WordToken(w)], [Token(Assign, "="), Token(Num, d)],
         [WordToken(w), Token(Assign, "="), Token(Num, d)]);
  }

  /** An identifier and the closing parenthesis, with `rest` after them. */
  lemma LexWordClose(x: string, rest: string)
    requires IdentifierText(x)
    ensures Lex(x + ([')'] + rest)) == [WordToken(x), Token(RightParen, ")")] + Lex(rest)
  {
    LexSymbol(')', rest);
    IdentifierLexes(x, [')'] + rest);
    Join(Lex(x + ([')'] + rest)), Lex([')'] + rest), Lex(rest), [WordToken(x)], [Token(RightParen, ")")],
         [WordToken(x), Token(RightParen, ")")]);
  }

  /** The text `, x)` followed by `rest`, split where the loop of `tokenize` splits it. */
  lemma PrintTailText(x: string, rest: string)
    ensures ", " + x + ")" + rest == [','] + ([' '] + (x + ([')'] + rest)))
  {
  }

  /** The tail `, x)` of a print call, with `rest` after it. */
  lemma LexPrintTail(x: string, rest: string)
    requires IdentifierText(x)
    ensures Lex(", " + x + ")" + rest) == [Token(Comma, ","), WordToken(x), Token(RightParen, ")")] + Lex(rest)
  {
    var x2 := x + ([')'] + rest);
    LexWordClose(x, rest);
    LexBlank(' ', x2);
    LexSymbol(',', [' '] + x2);
    PrintTailText(x, rest);
    Join(Lex([','] + ([' '] + x2)), Lex(x2), Lex(rest), [Token(Comma, ",")],
         [WordToken(x), Token(RightParen, ")")], [Token(Comma, ","), WordToken(x), Token(RightParen, ")")]);
  }

  /** An opening parenthesis and a string literal, with `b` after them. */
  lemma LexOpenString(m: string, b: string)
    requires '"' !in m
    ensures Lex(['('] + ("\"" + m + "\"" + b)) == [Token(LeftParen, "("), Token(String, m)] + Lex(b)
  {
    var q := "\"" + m + "\"" + b;
    StringLexes(m, b);
    LexSymbol('(', q);
    Join(Lex(['('] + q), Lex(q), Lex(b), [Token(LeftParen, "(")], [Token(String, m)],
         [Token(LeftParen, "("), Token(String, m)]);
  }

  /** The head `print("m"` of a print call, with `b` after it. */
  lemma LexPrintHead(m: string, b: string)
    requires '"' !in m
    ensures Lex("print" + (['('] + ("\"" + m + "\"" + b))) ==
      [Token(Print, "print"), Token(LeftParen, "("), Token(String, m)] + Lex(b)
  {
    var q := ['('] + ("\"" + m + "\"" + b);
    LexOpenString(m, b);
    assert IdentifierText("print");
    IdentifierLexes("print", q);
    Join(Lex("print" + q), Lex(q), Lex(b), [Token(Print, "print")], [Token(LeftParen, "("), Token(String, m)],
         [Token(Print, "print"), Token(LeftParen, "("), Token(String, m)]);
  }

  /** The text of a print call, split where the loop of `tokenize` splits it. */
  lemma PrintCallText(m: string, x: string, rest: string)
    ensures "print(\"" + m + "\", " + x + ")" + rest == "print" + (['('] + ("\"" + m + "\"" + (", " + x + ")" + rest)))
  {
  }

  /** A print call `print("m", x)`, with `rest` after it. */
  lemma LexPrint(m: string, x: string, rest: string)
    requires '"' !in m && IdentifierText(x)
    ensures Lex("print(\"" + m + "\", " + x + ")" + rest) ==
      [Token(Print, "print"), Token(LeftParen, "("), Token(String, m),
       Token(Comma, ","), WordToken(x), Token(RightParen, ")")] + Lex(rest)
  {
    var x3 := ", " + x + ")" + rest;
    LexPrintTail(x, rest);
    LexPrintHead(m, x3);
    PrintCallText(m, x, rest);
    Join(Lex("print" + (['('] + ("\"" + m + "\"" + x3))), Lex(x3), Lex(rest),
         [Token(Print, "print"), Token(LeftParen, "("), Token(String, m)],
         [Token(Comma, ","), WordToken(x), Token(RightParen, ")")],
         [Token(Print, "print"), Token(LeftParen, "("), Token(String, m),
          Token(Comma, ","), WordToken(x), Token(RightParen, ")")]);
  }

  /** A print call as the whole remaining text, and after a newline. */
  lemma PrintLineText(m: string, x: string)
    ensures var call := "print(\"" + m + "\", " + x + ")";
      call + "" == call && "\nprint(\"" + m + "\", " + x + ")" == ['\n'] + call
  {
  }

  /** A print call on a line of its own, as the last line. */
  lemma LexNewlinePrint(m: string, x: string)
    requires '"' !in m && IdentifierText(x) && x != "print"
    ensures Lex("\nprint(\"" + m + "\", " + x + ")") ==
      [Token(Print, "print"), Token(LeftParen, "("), Token(String, m),
       Token(Comma, ","), Token(Id, x), Token(RightParen, ")"), EndToken]
  {
    var call := "print(\"" + m + "\", " + x + ")";
    PrintLineText(m, x);
    LexPrint(m, x, "");
    LexBlank('\n', call);
    JoinLast(Lex(['\n'] + call), Lex(""), 
         [Token(Print, "print"), Token(LeftParen, "("), Token(String, m),
          Token(Comma, ","), Token(Id, x), Token(RightParen, ")")], [EndToken],
         [Token(Print, "print"), Token(LeftParen, "("), Token(String, m),
          Token(Comma, ","), Token(Id, x), Token(RightParen, ")"), EndToken]);
  }

  /** The text of `x = n` then `print("m", x)`, split after the assignment. */
  lemma AssignThenPrintText(w: string, d: string, m: string)
    ensures w + " = " + d + "\nprint(\"" + m + "\", " + w + ")" == w + " = " + d + ("\nprint(\"" + m + "\", " + w + ")")
  {
  }

  /** The tokens of `x = n` then `print("m", x)` on the next line. */
  lemma LexAssignThenPrint(w: string, d: string, m: string)
    requires IdentifierText(w) && w != "print" && Canonical(d) && DecimalValue(d) <= INT_MAX && '"' !in m
    ensures Lex(w + " = " + d + "\nprint(\"" + m + "\", " + w + ")") ==
      [Token(Id, w), Token(Assign, "="), Token(Num, d),
       Token(Print, "print"), Token(LeftParen, "("), Token(String, m),
       Token(Comma, ","), Token(Id, w), Token(RightParen, ")"), EndToken]
  {
    var rest := "\nprint(\"" + m + "\", " + w + ")";
    LexNewlinePrint(m, w);
    LexAssignment(w, d, rest);
    AssignThenPrintText(w, d, m);
    JoinLast(Lex(w + " = " + d + rest), Lex(rest),
         [WordToken(w), Token(Assign, "="), Token(Num, d)],
         Lex(rest),
         [Token(Id, w), Token(Assign, "="), Token(Num, d),
          Token(Print, "print"), Token(LeftParen, "("), Token(String, m),
          Token(Comma, ","), Token(Id, w), Token(RightParen, ")"), EndToken]);
  }

  // =====================================================================
  // parse
  // =====================================================================

  /** The node classes `parse` builds. */
  predicate Statement(n: Node) {
    n.AssignmentNode? || n.PrintNode?
  }

  /** `parse` builds only AssignmentNode and PrintNode. */
  lemma {:induction false} ParseBuildsStatements(t: seq<Token>, i: nat, program: seq<Node>)
    requires i <= |t| && forall k :: 0 <= k < |program| ==> Statement(program[k])
    ensures var r := ParseLoop(t, i, program); r.Ok? ==> forall k :: 0 <= k < |r.value| ==> Statement(r.value[k])
    decreases |t| - i
  {
    if i < |t| && t[i].kind != End {
      var it := IterationAt(t, i);
      ParseLoopStep(t, i, program);
      if it.Ok? {
        var (n, k) := it.value;
        var next := program + Pushed(n);
        assert forall j :: 0 <= j < |next| ==> Statement(next[j]);
        ParseBuildsStatements(t, k, next);
      }
    }
  }

  /** From `i` on there is no PRINT and no `ID ASSIGN`. */
  predicate NoStatementFrom(t: seq<Token>, i: nat) {
    forall k :: i <= k < |t| ==> t[k].kind != Print && !AssignmentStart(t, k)
  }

  /** Without a statement left, the loop of `parse` skips every token up to END or the end. */
  lemma {:induction false} SkipsRest(t: seq<Token>, i: nat, program: seq<Node>)
    requires i <= |t| && NoStatementFrom(t, i)
    ensures ParseLoop(t, i, program) == Ok(program)
    decreases |t| - i
  {
    if i < |t| && t[i].kind != End {
      var it := IterationAt(t, i);
      assert it.Ok? && it.value.0.None? && it.value.1 == i + 1;
      assert program + [] == program;
      SkipsRest(t, i + 1, program);
    }
  }

  /** `x = n` parses to one AssignmentNode of that value, which binds `x` to `n`. */
  lemma AssignmentRoundTrip(w: string, n: nat)
    requires IdentifierText(w) && w != "print" && n <= INT_MAX
    ensures ParseProgram(Lex(w + " = " + NatToString(n))) == Ok([AssignmentNode(w, n)])
    ensures Run([AssignmentNode(w, n)], State(map[], [])) == State(map[w := n], [])
  {
    var d := NatToString(n);
    assert Lex(w + " = " + d) == [Token(Id, w), Token(Assign, "="), Token(Num, d), EndToken] by {
      NatToStringCanonical(n);
      NatToStringDecimal(n);
      LexAssignment(w, d, "");
      assert w + " = " + d + "" == w + " = " + d;
    }
    ParseAssignmentAlone([Token(Id, w), Token(Assign, "="), Token(Num, d), EndToken], w, n);
    assert [AssignmentNode(w, n)][..0] == [];
  }

  /** The parse of the tokens of `x = n`. */
  lemma ParseAssignmentAlone(t: seq<Token>, w: string, n: nat)
    requires n <= INT_MAX && t == [Token(Id, w), Token(Assign, "="), Token(Num, NatToString(n)), EndToken]
    ensures ParseProgram(t) == Ok([AssignmentNode(w, n)])
  {
    StoiOfNatToString(n);
    var a := AssignmentNode(w, n);
    ParseAssignmentStep(t, 0, [], n);
    assert [] + [a] == [a];
    assert ParseLoop(t, 3, [a]) == Ok([a]);
  }

  /** `print("m", x)` parses to one PrintNode; run alone, `x` is unbound and nothing is written. */
  lemma PrintRoundTrip(m: string, x: string)
    requires '"' !in m && IdentifierText(x) && x != "print"
    ensures ParseProgram(Lex("print(\"" + m + "\", " + x + ")")) == Ok([PrintNode(m, x)])
    ensures Run([PrintNode(m, x)], State(map[], [])) == State(map[], [])
  {
    var t := [Token(Print, "print"), Token(LeftParen, "("), Token(String, m),
              Token(Comma, ","), Token(Id, x), Token(RightParen, ")"), EndToken];
    var six := [Token(Print, "print"), Token(LeftParen, "("), Token(String, m),
                Token(Comma, ","), Token(Id, x), Token(RightParen, ")")];
    PrintLineText(m, x);
    LexPrint(m, x, "");
    JoinLast(Lex("print(\"" + m + "\", " + x + ")"), Lex(""), six, [EndToken], t);
    ParsePrintShape(t);
    RunLonePrint(m, x);
  }

  /** A PrintNode run from the empty context finds no variable and writes nothing. */
  lemma RunLonePrint(m: string, x: string)
    ensures Run([PrintNode(m, x)], State(map[], [])) == State(map[], [])
  {
    assert [PrintNode(m, x)][..0] == [];
  }

  /** PRINT ( STRING , ID ) END parses to one PrintNode. */
  lemma ParsePrintShape(t: seq<Token>)
    requires |t| == 7 && t[0].kind == Print && t[1].kind == LeftParen && t[2].kind == String
    requires t[3].kind == Comma && t[4].kind == Id && t[5].kind == RightParen && t[6].kind == End
    ensures ParseProgram(t) == Ok([PrintNode(t[2].value, t[4].value)])
  {
    var p := PrintNode(t[2].value, t[4].value);
    ParsePrintStep(t, 0, []);
    assert [] + [p] == [p];
  }

  /** `ID = NUM` adds one AssignmentNode of the NUM's value and moves past the three tokens. */
  lemma ParseAssignmentStep(t: seq<Token>, i: nat, program: seq<Node>, v: int)
    requires i + 2 < |t| && AssignmentStart(t, i) && t[i + 2].kind == Num && Stoi(t[i + 2].value) == Some(v)
    ensures ParseLoop(t, i, program) == ParseLoop(t, i + 3, program + [AssignmentNode(t[i].value, v)])
  {
    var it := IterationAt(t, i);
    assert it.Ok? && it.value.0 == Some(AssignmentNode(t[i].value, v)) && it.value.1 == i + 3;
  }

  /** `PRINT ( STRING , ID )` adds one PrintNode and moves past the six tokens. */
  lemma ParsePrintStep(t: seq<Token>, i: nat, program: seq<Node>)
    requires i + 5 < |t| && t[i].kind == Print && t[i + 1].kind == LeftParen && t[i + 2].kind == String &&
             t[i + 3].kind == Comma && t[i + 4].kind == Id && t[i + 5].kind == RightParen
    ensures ParseLoop(t, i, program) == ParseLoop(t, i + 6, program + [PrintNode(t[i + 2].value, t[i + 4].value)])
  {
    var it := IterationAt(t, i);
    assert it.Ok? && it.value.0 == Some(PrintNode(t[i + 2].value, t[i + 4].value)) && it.value.1 == i + 6;
  }

  /** ID ASSIGN NUM PRINT ( STRING , ID ) END parses to an AssignmentNode and a PrintNode. */
  lemma ParseAssignThenPrintShape(t: seq<Token>, v: int)
    requires |t| == 10 && AssignmentStart(t, 0) && t[2].kind == Num && Stoi(t[2].value) == Some(v)
    requires t[3].kind == Print && t[4].kind == LeftParen && t[5].kind == String
    requires t[6].kind == Comma && t[7].kind == Id && t[8].kind == RightParen && t[9].kind == End
    ensures ParseProgram(t) == Ok([AssignmentNode(t[0].value, v), PrintNode(t[5].value, t[7].value)])
  {
    var a := AssignmentNode(t[0].value, v);
    var p := PrintNode(t[5].value, t[7].value);
    ParseAssignmentStep(t, 0, [], v);
    ParsePrintStep(t, 3, [] + [a]);
    assert [] + [a] + [p] == [a, p];
  }

  /** The parse of the tokens of `x = n` then `print("m", x)`. */
  lemma ParseAssignThenPrint(t: seq<Token>, w: string, n: nat, m: string)
    requires n <= INT_MAX
    requires t == [Token(Id, w), Token(Assign, "="), Token(Num, NatToString(n)),
                   Token(Print, "print"), Token(LeftParen, "("), Token(String, m),
                   Token(Comma, ","), Token(Id, w), Token(RightParen, ")"), EndToken]
    ensures ParseProgram(t) == Ok([AssignmentNode(w, n), PrintNode(m, w)])
  {
    StoiOfNatToString(n);
    ParseAssignThenPrintShape(t, n);
  }

  /**
    The program `x = n` then `print("m", x)` on the next line parses to the
    two statements, and running it writes the one line `x = n`.
  */
  lemma AssignThenPrint(w: string, n: nat, m: string)
    requires IdentifierText(w) && w != "print" && n <= INT_MAX && '"' !in m
    ensures var s := w + " = " + NatToString(n) + "\nprint(\"" + m + "\", " + w + ")";
      ParseProgram(Lex(s)) == Ok([AssignmentNode(w, n), PrintNode(m, w)])
    ensures Run([AssignmentNode(w, n), PrintNode(m, w)], State(map[], [])) ==
      State(map[w := n], [w + " = " + NatToString(n)])
  {
    var d := NatToString(n);
    var s := w + " = " + d + "\nprint(\"" + m + "\", " + w + ")";
    var t := [Token(Id, w), Token(Assign, "="), Token(Num, d),
              Token(Print, "print"), Token(LeftParen, "("), Token(String, m),
              Token(Comma, ","), Token(Id, w), Token(RightParen, ")"), EndToken];
    assert Lex(s) == t by {
      NatToStringCanonical(n);
      NatToStringDecimal(n);
      LexAssignThenPrint(w, d, m);
    }
    ParseAssignThenPrint(t, w, n, m);
    RunAssignThenPrint(w, n, m);
  }

  /** Running `x = n` then `print("m", x)` binds `x` and writes `x = n`. */
  lemma RunAssignThenPrint(w: string, n: nat, m: string)
    ensures Run([AssignmentNode(w, n), PrintNode(m, w)], State(map[], [])) ==
      State(map[w := n], [w + " = " + NatToString(n)])
  {
    var prog := [AssignmentNode(w, n), PrintNode(m, w)];
    assert prog[..1] == [AssignmentNode(w, n)] && prog[..1][..0] == [];
    assert Run(prog[..1], State(map[], [])) == State(map[w := n], []);
    assert PrintLine(w, n) == w + " = " + NatToString(n);
  }

  // =====================================================================
  // evaluate
  // =====================================================================

  /** The value of the last AssignmentNode for `x` in `p`, if there is one. */
  function LastAssigned(p: seq<Node>, x: string): Option<int>
    decreases |p|
  {
    if p == [] then None
    else if p[|p| - 1].AssignmentNode? && p[|p| - 1].variable == x then Some(p[|p| - 1].number)
    else LastAssigned(p[..|p| - 1], x)
  }

  /**
    After a program, `x` holds the value of its last assignment in the
    program; with none, `x` is as it was before.
  */
  lemma {:induction false} RunBinds(p: seq<Node>, st: State, x: string)
    ensures var r := Run(p, st);
      match LastAssigned(p, x)
      case Some(v) => x in r.vars && r.vars[x] == v
      case None => (x in r.vars <==> x in st.vars) && (x in st.vars ==> r.vars[x] == st.vars[x])
    decreases |p|
  {
    if p != [] {
      RunBinds(p[..|p| - 1], st, x);
    }
  }

  /** The number of PrintNodes in `p`. */
  function Prints(p: seq<Node>): nat
    decreases |p|
  {
    if p == [] then 0 else Prints(p[..|p| - 1]) + (if p[|p| - 1].PrintNode? then 1 else 0)
  }

  /** Lines are only appended to the output file, at most one per PrintNode. */
  lemma {:induction false} RunAppendsOutput(p: seq<Node>, st: State)
    ensures var r := Run(p, st);
      |st.out| <= |r.out| <= |st.out| + Prints(p) && r.out[..|st.out|] == st.out
    decreases |p|
  {
    if p != [] {
      var q := p[..|p| - 1];
      RunAppendsOutput(q, st);
      var r0 := Run(q, st);
      var r := Run(p, st);
      assert r.out[..|r0.out|] == r0.out;
      assert r.out[..|st.out|] == r.out[..|r0.out|][..|st.out|];
    }
  }

  /** Running two programs one after the other is running their concatenation. */
  lemma {:induction false} RunAppend(p: seq<Node>, q: seq<Node>, st: State)
    ensures Run(p + q, st) == Run(q, Run(p, st))
    decreases |q|
  {
    if q == [] {
      assert p + q == p;
    } else {
      var q0 := q[..|q| - 1];
      assert (p + q)[..|p + q| - 1] == p + q0;
      assert (p + q)[|p + q| - 1] == q[|q| - 1];
      RunAppend(p, q0, st);
    }
  }

  /**
    A PrintNode at the end of a program run from the empty context writes
    `x = v` exactly when the program assigned `x`, with `v` its last value,
    and otherwise nothing; the message is never written.
  */
  lemma RunPrintAfter(p: seq<Node>, m: string, x: string)
    ensures Run(p + [PrintNode(m, x)], State(map[], [])).out ==
      Run(p, State(map[], [])).out + (match LastAssigned(p, x) case Some(v) => [PrintLine(x, v)] case None => [])
  {
    var empty := State(map[], []);
    var q := p + [PrintNode(m, x)];
    assert q[..|q| - 1] == p && q[|q| - 1] == PrintNode(m, x);
    RunBinds(p, empty, x);
  }
}
