/**
  What mypython.cpp's scanner, parser and evaluator guarantee, proved about
  the model in module MyPython.
*/
module MyPythonProperties {
  import opened Wrappers
  import opened CppStd
  import opened MyPython

  // =====================================================================
  // tokenize: the shape of every token
  // =====================================================================

  /**
    The tokens the `switch` of `tokenize` can push, with their texts. ID,
    NUM, PRINT, EQUALS, NUMBER and NEWLINE are never pushed: the code that
    would push them is unreachable.
  */
  predicate WellFormed(tok: Token) {
    var v := tok.value;
    match tok.kind
    case Assign => v == "="
    case Plus => v == "+"
    case Minus => v == "-"
    case LeftParen => v == "("
    case RightParen => v == ")"
    case Comma => v == ","
    case Semicolon => v == ";"
    case String => '"' !in v
    case Comment => |v| > 0 && v[0] == '#' && '\n' !in v
    case _ => false
  }

  lemma StepWellFormed(s: string)
    requires s != []
    ensures forall tok :: tok in Step(s).tokens ==> WellFormed(tok)
  {
    var c := s[0];
    if c == '#' {
      var (comment, n) := Getline(s[1..], '\n');
      assert '\n' !in "#" + comment;
    }
  }

  lemma {:induction false} ScanWellFormed(s: string)
    ensures forall tok :: tok in Scan(s) ==> WellFormed(tok)
    decreases |s|
  {
    if s != [] {
      StepWellFormed(s);
      ScanWellFormed(s[Step(s).used..]);
    }
  }

  /** Every token `tokenize` returns but the last is well formed, and the last one is END. */
  lemma LexWellFormed(s: string)
    ensures |Lex(s)| > 0 && Lex(s)[|Lex(s)| - 1] == EndToken
    ensures forall k :: 0 <= k < |Lex(s)| - 1 ==> WellFormed(Lex(s)[k])
    ensures forall k :: 0 <= k < |Lex(s)| ==> Lex(s)[k].kind !in {Id, Num, Print, Newline}
  {
    ScanWellFormed(s);
    var t := Lex(s);
    forall k | 0 <= k < |t|
      ensures t[k].kind !in {Id, Num, Print, Newline}
    {
      if k < |t| - 1 {
        assert t[k] in Scan(s);
      }
    }
  }

  // =====================================================================
  // tokenize: what is dropped, and comments
  // =====================================================================

  /** A character the loop reads and drops: white space, and every character without a `case`. */
  predicate Dropped(c: char) {
    IsSpace(c) || (SymbolToken(c).None? && c != '"' && c != '#')
  }

  /** Letters and digits are among the dropped characters. */
  lemma AlnumDropped(c: char)
    requires IsAlnum(c)
    ensures Dropped(c)
  {
  }

  /** A run of dropped characters contributes no token and does not change how the rest is read. */
  lemma {:induction false} DroppedRun(w: string, b: string)
    requires forall k :: 0 <= k < |w| ==> Dropped(w[k])
    ensures Lex(w + b) == Lex(b)
    decreases |w|
  {
    if w != [] {
      var s := w + b;
      assert s[0] == w[0];
      assert Step(s) == Lexeme([], 1);
      assert s[1..] == w[1..] + b;
      assert Scan(s) == Scan(w[1..] + b);
      DroppedRun(w[1..], b);
      assert Lex(s) == Scan(w[1..] + b) + [EndToken] == Lex(w[1..] + b);
    } else {
      assert w + b == b;
    }
  }

  /** So a line of names, numbers and spaces, such as `x = 5` without the `=`, lexes to nothing. */
  lemma NamesAndNumbersVanish(w: string, b: string)
    requires forall k :: 0 <= k < |w| ==> IsAlnum(w[k]) || IsSpace(w[k])
    ensures Lex(w + b) == Lex(b)
  {
    DroppedRun(w, b);
  }

  /** A comment up to a newline is one COMMENT token holding `#` and the text; the newline is read with it. */
  lemma CommentToken(c: string, b: string)
    requires '\n' !in c
    ensures Lex("#" + c + "\n" + b) == [Token(Comment, "#" + c)] + Lex(b)
  {
    var s := "#" + c + "\n" + b;
    CommentStep(c, b, s);
    assert s[|c| + 2..] == b;
    LexAfterStep(s, |c| + 2);
  }

  lemma CommentStep(c: string, b: string, s: string)
    requires '\n' !in c && s == "#" + c + "\n" + b
    ensures Step(s) == Lexeme([Token(Comment, "#" + c)], |c| + 2)
  {
    assert Step(s) == CommentLexeme(s);
    var rest := s[1..];
    assert rest == c + "\n" + b;
    assert rest[|c|] == '\n';
    assert forall j :: 0 <= j < |c| ==> rest[j] == c[j];
    assert IndexOf(rest, '\n') == |c|;
    assert rest[..|c|] == c;
    assert Getline(rest, '\n') == (c, |c| + 1);
  }

  /** A string literal up to its closing quote is one STRING token without the quotes. */
  lemma StringToken(m: string, b: string)
    requires '"' !in m
    ensures Lex("\"" + m + "\"" + b) == [Token(String, m)] + Lex(b)
  {
    var s := "\"" + m + "\"" + b;
    StringStep(m, b, s);
    assert s[|m| + 2..] == b;
    LexAfterStep(s, |m| + 2);
  }

  lemma StringStep(m: string, b: string, s: string)
    requires '"' !in m && s == "\"" + m + "\"" + b
    ensures Step(s) == Lexeme([Token(String, m)], |m| + 2)
  {
    assert Step(s) == StringLexeme(s);
    var rest := s[1..];
    assert rest == m + "\"" + b;
    assert rest[|m|] == '"';
    assert forall j :: 0 <= j < |m| ==> rest[j] == m[j];
    assert IndexOf(rest, '"') == |m|;
    assert rest[..|m|] == m;
    assert Getline(rest, '"') == (m, |m| + 1);
  }

  /** When one turn of the loop reads exactly `n` characters, the rest is lexed from there. */
  lemma LexAfterStep(s: string, n: nat)
    requires s != [] && Step(s).used == n
    ensures Lex(s) == Step(s).tokens + Lex(s[n..])
  {
  }

  // =====================================================================
  // parse
  // =====================================================================

  /** From `i` on there is no token that starts a statement. */
  predicate NoStatementFrom(t: seq<Token>, i: nat) {
    forall k :: i <= k < |t| ==> t[k].kind != Id && t[k].kind != Print
  }

  /** Without ID and PRINT tokens, the loop of `parse` skips every token up to END. */
  lemma {:induction false} SkipsAll(t: seq<Token>, i: nat, program: seq<Node>)
    requires i <= |t| && NoStatementFrom(t, i)
    ensures ParseLoop(t, i, program) == Ok(program)
    decreases |t| - i
  {
    if i < |t| && t[i].kind != End {
      var it := IterationAt(t, i);
      assert it.Ok? && it.value.0 == [] && it.value.1 == i + 1;
      assert program + [] == program;
      SkipsAll(t, i + 1, program);
    }
  }

  /**
    Since `tokenize` never produces ID or PRINT, every source text parses
    to an empty program, and running it leaves the context empty and the
    output file untouched.
  */
  lemma SourceParsesToNothing(s: string)
    ensures ParseProgram(Lex(s)) == Ok([])
    ensures Run([], State(map[], [])) == Normal(State(map[], []))
  {
    LexWellFormed(s);
    SkipsAll(Lex(s), 0, []);
  }

  /** An expression the first stage builds: nullptr, one INTEGER, or two INTEGERs joined by an operator. */
  predicate LiteralSum(e: Option<Node>) {
    e.None? || e.value.IntegerNode? ||
    (e.value.ExpressionNode? && e.value.left.Some? && e.value.left.value.IntegerNode? &&
     e.value.right.Some? && e.value.right.value.IntegerNode?)
  }

  /**
    The first stage at an ID: an AssignmentNode exactly when `=` follows,
    for that variable; its expression is nullptr exactly when no NUM is
    after `=`, and is an operation exactly when `+` or `-` and a second NUM
    follow, in which case five tokens are read.
  */
  lemma AssignmentShape(t: seq<Token>, i: nat)
    requires i < |t| && t[i].kind == Id
    ensures var r := AssignmentAt(t, i);
      r.Ok? && r.value.0.Some? ==>
        var n := r.value.0.value;
        n.AssignmentNode? && n.variable == t[i].value && LiteralSum(n.expression) &&
        (n.expression.None? <==> !(i + 2 < |t| && t[i + 2].kind == Num)) &&
        (n.expression.Some? && n.expression.value.ExpressionNode? <==>
           i + 4 < |t| && t[i + 2].kind == Num && t[i + 3].kind in {Plus, Minus} && t[i + 4].kind == Num) &&
        (n.expression.Some? && n.expression.value.ExpressionNode? ==>
           n.expression.value.op == FirstChar(t[i + 3].value) && r.value.1 == i + 5)
  {
  }

  /**
    `x = n` followed by END: the first stage builds the assignment, and the
    second stage sees END as an ordinary token and skips it, so the loop
    runs past END to the end of the vector.
  */
  lemma AssignmentBeforeEnd(x: string, d: string, v: int)
    requires Stoi(d) == Some(v)
    ensures ParseProgram([Token(Id, x), Token(Assign, "="), Token(Num, d), EndToken]) ==
      Ok([AssignmentNode(x, Some(IntegerNode(v)))])
  {
    var t := [Token(Id, x), Token(Assign, "="), Token(Num, d), EndToken];
    var n := AssignmentNode(x, Some(IntegerNode(v)));
    assert IterationAt(t, 0) == Ok(([n], 4)) by {
      assert SumAt(t, 3, v) == Ok((IntegerNode(v), 3));
      assert AssignmentAt(t, 0) == Ok((Some(n), 3));
      assert SecondStageAt(t, 3) == Ok((None, 4));
      assert Pushed(Some(n)) + Pushed(None) == [n];
    }
    assert [] + [n] == [n];
    assert ParseLoop(t, 4, [n]) == Ok([n]);
  }

  /** Without the END token, the second stage dereferences the end iterator. */
  lemma AssignmentAtEndDerefs(x: string, d: string, v: int)
    requires Stoi(d) == Some(v)
    ensures ParseProgram([Token(Id, x), Token(Assign, "="), Token(Num, d)]) == Fail(DerefEnd(3))
  {
    var t := [Token(Id, x), Token(Assign, "="), Token(Num, d)];
    var a := AssignmentAt(t, 0);
    assert a.Ok? && a.value.1 == 3;
    assert SecondStageAt(t, 3) == Fail(DerefEnd(3));
  }

  /** A PRINT not followed by `(` throws before any node is built. */
  lemma PrintNeedsParen(t: seq<Token>, i: nat, program: seq<Node>)
    requires i < |t| && t[i].kind == Print && (i + 1 == |t| || t[i + 1].kind != LeftParen)
    ensures ParseLoop(t, i, program) == Fail(RuntimeError("Expected '(' after 'print'"))
  {
  }

  // =====================================================================
  // evaluate
  // =====================================================================

  /** A node that evaluates to nothing: an INTEGER or a VARIABLE, or a nullptr child. */
  predicate IsLeaf(e: Option<Node>) {
    e.None? || e.value.IntegerNode? || e.value.VariableNode?
  }

  /**
    An operation over leaves: a leaf child does not write "__expr_result",
    so each present child contributes the value already stored under that
    key (0 when there is none, which `operator[]` then inserts) and a
    nullptr child contributes 0; the literal of an INTEGER is never read.
  */
  lemma ExpressionOverLeaves(l: Option<Node>, r: Option<Node>, op: char, st: State)
    requires IsLeaf(l) && IsLeaf(r)
    ensures var r0 := Get(st.vars, ResultKey);
      var a := if l.Some? then r0 else 0;
      var b := if r.Some? then r0 else 0;
      var touched := State(if l.Some? || r.Some? then Touch(st.vars, ResultKey) else st.vars, st.out);
      Eval(ExpressionNode(l, r, op), st) ==
        if op == '+' then
          (if InInt32(a + b) then Normal(State(st.vars[ResultKey := a + b], st.out)) else Overflow(touched))
        else if op == '-' then
          (if InInt32(a - b) then Normal(State(st.vars[ResultKey := a - b], st.out)) else Overflow(touched))
        else Normal(touched)
  {
    var r0 := Get(st.vars, ResultKey);
    LeafOperand(l, st);
    var s1 := OperandOf(l, st).st;
    LeafOperand(r, s1);
    var s2 := OperandOf(r, s1).st;
    assert s2.vars == (if l.Some? || r.Some? then Touch(st.vars, ResultKey) else st.vars) && s2.out == st.out;
    var a := if l.Some? then r0 else 0;
    var b := if r.Some? then r0 else 0;
    TouchThenSet(st.vars, ResultKey, a + b);
    TouchThenSet(st.vars, ResultKey, a - b);
  }

  lemma TouchThenSet(m: map<string, int>, k: string, v: int)
    ensures Touch(m, k)[k := v] == m[k := v]
  {
  }

  /** A leaf operand contributes the value under "__expr_result" (0 for nullptr) and only touches that key. */
  lemma LeafOperand(child: Option<Node>, st: State)
    requires IsLeaf(child)
    ensures OperandOf(child, st) ==
      if child.Some? then Operand(Get(st.vars, ResultKey), State(Touch(st.vars, ResultKey), st.out)) else Operand(0, st)
  {
    if child.Some? {
      assert Eval(child.value, st) == Normal(st);
    }
  }

  /**
    What an assignment from the first stage stores: with `r0` the value
    under "__expr_result", the variable and that key both get `r0` for one
    INTEGER, `r0 + r0` for `+` (overflow stops the program), `0` for `-` and
    `r0` for any other operator; nullptr changes nothing. The context is a
    map to `int`, so `r0` is one.
  */
  lemma FirstStageAssignmentValue(x: string, e: Option<Node>, st: State)
    requires LiteralSum(e)
    requires InInt32(Get(st.vars, ResultKey))
    ensures e.None? ==> Eval(AssignmentNode(x, e), st) == Normal(st)
    ensures var r0 := Get(st.vars, ResultKey);
      e.Some? ==>
        var v := if e.value.ExpressionNode? && e.value.op == '+' then r0 + r0
                 else if e.value.ExpressionNode? && e.value.op == '-' then 0
                 else r0;
        (Eval(AssignmentNode(x, e), st).Normal? <==> InInt32(v)) &&
        (InInt32(v) ==> Eval(AssignmentNode(x, e), st) == Normal(State(st.vars[ResultKey := v][x := v], st.out)))
  {
    if e.Some? && e.value.ExpressionNode? {
      var n := e.value;
      ExpressionOverLeaves(n.left, n.right, n.op, st);
    }
  }

  /** The message of a PrintNode is never written: only `name = value`, and only for a bound name. */
  lemma PrintIgnoresMessage(m1: string, m2: string, x: string, st: State)
    ensures Eval(PrintNode(m1, x), st) == Eval(PrintNode(m2, x), st)
    ensures Eval(PrintNode(m1, x), st).Normal? && Eval(PrintNode(m1, x), st).st.vars == st.vars
    ensures x in st.vars ==> Eval(PrintNode(m1, x), st).st.out == st.out + [x + " = " + IntToString(st.vars[x])]
    ensures x !in st.vars ==> Eval(PrintNode(m1, x), st).st.out == st.out
  {
  }

  /** Running two programs one after the other is running their concatenation. */
  lemma {:induction false} RunAppend(p: seq<Node>, q: seq<Node>, st: State)
    ensures Run(p + q, st) == match Run(p, st) case Overflow(s) => Overflow(s) case Normal(s) => Run(q, s)
    decreases |q|
  {
    if q == [] {
      assert p + q == p;
    } else {
      var q0 := q[..|q| - 1];
      assert (p + q)[..|p + q| - 1] == p + q0;
      assert (p + q)[|p + q| - 1] == q[|q| - 1];
      RunAppend(p, q0, st);
    }
  }

  /** The integer-literal assignment of the second path: the later of two writes to one variable wins. */
  lemma LiteralLastWriteWins(x: string, a: int, b: int, st: State)
    ensures Run([LiteralAssignmentNode(x, a), LiteralAssignmentNode(x, b)], st) ==
      Run([LiteralAssignmentNode(x, b)], st)
  {
    var p := [LiteralAssignmentNode(x, a), LiteralAssignmentNode(x, b)];
    assert p[..1] == [LiteralAssignmentNode(x, a)];
    assert [LiteralAssignmentNode(x, b)][..0] == [];
    assert st.vars[x := a][x := b] == st.vars[x := b];
  }
}
