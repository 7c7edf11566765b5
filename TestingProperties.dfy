/**
  What testing.cpp's line interpreter guarantees, proved about the model in
  module Testing.
*/
module TestingProperties {
  import opened Wrappers
  import opened CppStd
  import opened Testing

  // =====================================================================
  // getline: the lines of the file
  // =====================================================================

  /** The lines written back, each followed by a newline. */
  function Unlines(lines: seq<string>): string
    decreases |lines|
  {
    if lines == [] then "" else lines[0] + "\n" + Unlines(lines[1..])
  }

  /** No line `getline` reads holds a newline. */
  lemma {:induction false} LinesHaveNoNewline(text: string)
    ensures forall k :: 0 <= k < |Lines(text)| ==> '\n' !in Lines(text)[k]
    decreases |text|
  {
    if text != [] {
      var (line, n) := Getline(text, '\n');
      LinesHaveNoNewline(text[n..]);
      var ls := Lines(text);
      assert ls == [line] + Lines(text[n..]);
      assert forall k :: 1 <= k < |ls| ==> ls[k] == Lines(text[n..])[k - 1];
    }
  }

  /**
    The lines with a newline after each give back the text, plus a final
    newline when the text does not end with one.
  */
  lemma {:induction false} LinesRoundTrip(text: string)
    ensures Unlines(Lines(text)) == text + FinalNewline(text)
    decreases |text|
  {
    if text != [] {
      var g := Getline(text, '\n');
      LinesRoundTrip(text[g.1..]);
      RoundTripStep(text, g.0, g.1);
    }
  }

  lemma RoundTripStep(text: string, line: string, n: nat)
    requires text != [] && Getline(text, '\n') == (line, n)
    requires Unlines(Lines(text[n..])) == text[n..] + FinalNewline(text[n..])
    ensures Unlines(Lines(text)) == text + FinalNewline(text)
  {
    var rest := text[n..];
    LinesCons(text, line, n);
    UnlinesCons(line, Lines(rest));
    SplitAtNewline(text, line, n);
    if n == |line| + 1 {
      JoinLine(text, line, rest);
    } else {
      LastLine(text);
    }
  }

  lemma LinesCons(text: string, line: string, n: nat)
    requires text != [] && Getline(text, '\n') == (line, n)
    ensures Lines(text) == [line] + Lines(text[n..])
  {
  }

  lemma UnlinesCons(line: string, ls: seq<string>)
    ensures Unlines([line] + ls) == line + "\n" + Unlines(ls)
  {
    assert ([line] + ls)[1..] == ls;
  }

  /** What `getline` leaves: the line and its newline before the rest, or the whole text. */
  lemma SplitAtNewline(text: string, line: string, n: nat)
    requires Getline(text, '\n') == (line, n)
    ensures n == |line| + 1 ==> text == line + "\n" + text[n..]
    ensures n != |line| + 1 ==> line == text && text[n..] == [] && '\n' !in text
  {
    if n == |line| + 1 {
      assert text == text[..|line|] + [text[|line|]] + text[n..];
    }
  }

  lemma JoinLine(text: string, line: string, rest: string)
    requires text == line + "\n" + rest
    ensures line + "\n" + (rest + FinalNewline(rest)) == text + FinalNewline(text)
  {
    if rest != [] {
      assert text[|text| - 1] == rest[|rest| - 1];
    }
  }

  lemma LastLine(line: string)
    requires line != [] && '\n' !in line
    ensures Unlines([line]) == line + FinalNewline(line)
  {
    assert line[|line| - 1] in line;
    assert [line][1..] == [];
  }

  /** The newline `Unlines` adds after a last line that had none. */
  function FinalNewline(text: string): string {
    if text == [] || text[|text| - 1] == '\n' then "" else "\n"
  }

  // =====================================================================
  // Stream extraction on known text
  // =====================================================================

  /** Only white space. */
  predicate Blank(b: string) {
    forall k :: 0 <= k < |b| ==> IsSpace(b[k])
  }

  /** A word `>> std::string` reads whole: non-empty, without white space. */
  predicate Word(w: string) {
    |w| > 0 && forall k :: 0 <= k < |w| ==> !IsSpace(w[k])
  }

  lemma {:induction false} SpaceRunOf(b: string, r: string)
    requires Blank(b) && (r == [] || !IsSpace(r[0]))
    ensures SpaceRun(b + r) == |b|
    decreases |b|
  {
    if b == [] {
      assert b + r == r;
    } else {
      assert (b + r)[1..] == b[1..] + r;
      SpaceRunOf(b[1..], r);
    }
  }

  lemma {:induction false} WordRunOf(w: string, r: string)
    requires (forall k :: 0 <= k < |w| ==> !IsSpace(w[k])) && (r == [] || IsSpace(r[0]))
    ensures WordRun(w + r) == |w|
    decreases |w|
  {
    if w == [] {
      assert w + r == r;
    } else {
      assert (w + r)[1..] == w[1..] + r;
      WordRunOf(w[1..], r);
    }
  }

  /** `>> std::string` skips the blanks and reads the word up to the next blank. */
  lemma ExtractWordOf(b: string, w: string, r: string)
    requires Blank(b) && Word(w) && (r == [] || IsSpace(r[0]))
    ensures ExtractWord(b + w + r) == Some((w, r))
  {
    var s := b + w + r;
    assert s == b + (w + r);
    SpaceRunOf(b, w + r);
    assert s[|b|..] == w + r;
    WordRunOf(w, r);
    assert (w + r)[..|w|] == w && (w + r)[|w|..] == r;
  }

  lemma LeadingWord(w: string, r: string)
    requires Word(w) && (r == [] || IsSpace(r[0]))
    ensures ExtractWord(w + r) == Some((w, r))
  {
    ExtractWordOf("", w, r);
    assert "" + w + r == w + r;
  }

  lemma BlankThenWord(w: string, r: string)
    requires Word(w) && (r == [] || IsSpace(r[0]))
    ensures ExtractWord(" " + w + r) == Some((w, r))
  {
    ExtractWordOf(" ", w, r);
  }

  /** `>> char` skips the blanks and reads one character. */
  lemma ExtractCharOf(b: string, c: char, r: string)
    requires Blank(b) && !IsSpace(c)
    ensures ExtractChar(b + [c] + r) == Some((c, r))
  {
    var s := b + [c] + r;
    assert s == b + ([c] + r);
    SpaceRunOf(b, [c] + r);
    assert s[|b|..] == [c] + r;
  }

  /** Blanks in front change nothing for `>> int` once the text after them starts with a non-blank. */
  lemma ExtractIntSkips(b: string, t: string)
    requires Blank(b) && |t| > 0 && !IsSpace(t[0])
    ensures ExtractInt(b + t) == ExtractInt(t)
  {
    SpaceRunOf(b, t);
    assert (b + t)[|b|..] == t;
    SpaceRunOf([], t);
    assert [] + t == t;
  }

  /** The digit run at the front of `d + r` is `d`, for the decimal digits `d` of `n`. */
  lemma DigitsOf(d: string, r: string, n: nat)
    requires d == NatToString(n) && (r == [] || !IsDigit(r[0]))
    ensures IsDigit((d + r)[0]) && DigitRun(d + r) == |d| && (d + r)[..|d|] == d && DecimalValue(d) == n
  {
    assert (d + r)[..|d|] == d;
    DigitRunMaximal(d + r, |d|);
    NatToStringDecimal(n);
  }

  /** `>> int` on text starting with a non-blank: the sign, then the digit run. */
  lemma ExtractIntAtStart(t: string)
    requires |t| > 0 && !IsSpace(t[0])
    ensures SpaceRun(t) == 0 && t[SpaceRun(t)..] == t
  {
  }

  /** `>> int` on the decimal digits `d` of `n` followed by a non-digit. */
  lemma ExtractIntDigits(d: string, r: string, n: nat)
    requires d == NatToString(n) && n <= INT_MAX && (r == [] || !IsDigit(r[0]))
    ensures ExtractInt(d + r) == Some(n)
  {
    DigitsOf(d, r, n);
    ExtractIntAtStart(d + r);
  }

  /** `>> int` on a minus sign, the decimal digits `d` of `n`, then a non-digit. */
  lemma ExtractIntNegative(d: string, r: string, n: nat)
    requires d == NatToString(n) && n <= INT_MAX + 1 && (r == [] || !IsDigit(r[0]))
    ensures ExtractInt("-" + d + r) == Some(-(n as int))
  {
    var u := d + r;
    DigitsOf(d, r, n);
    var t := "-" + d + r;
    assert t == ['-'] + u && t[1..] == u;
    ExtractIntAtStart(t);
    NegatedDigits(t, u, n);
  }

  lemma NegatedDigits(t: string, u: string, n: nat)
    requires |t| > 0 && t[0] == '-' && t[1..] == u && SpaceRun(t) == 0 && t[SpaceRun(t)..] == t
    requires 0 < DigitRun(u) && AllDigits(u[..DigitRun(u)]) && DecimalValue(u[..DigitRun(u)]) == n && n <= INT_MAX + 1
    ensures ExtractInt(t) == Some(-(n as int))
  {
  }

  /** `>> int` reads back what `operator<<(int)` wrote, up to a non-digit. */
  lemma IntTextReads(v: int, r: string)
    requires InInt32(v) && (r == [] || !IsDigit(r[0]))
    ensures var t := IntToString(v) + r; |t| > 0 && !IsSpace(t[0]) && ExtractInt(t) == Some(v)
  {
    if v < 0 {
      var d := NatToString(-v);
      assert IntToString(v) + r == "-" + d + r;
      ExtractIntNegative(d, r, -v);
    } else {
      var d := NatToString(v);
      assert IntToString(v) + r == d + r;
      ExtractIntDigits(d, r, v);
      DigitsOf(d, r, v);
    }
  }

  /** `>> int` skips the blanks and reads back what `operator<<(int)` wrote. */
  lemma ExtractIntOf(b: string, v: int, r: string)
    requires Blank(b) && InInt32(v) && (r == [] || !IsDigit(r[0]))
    ensures ExtractInt(b + IntToString(v) + r) == Some(v)
  {
    var t := IntToString(v) + r;
    assert b + IntToString(v) + r == b + t;
    IntTextReads(v, r);
    ExtractIntSkips(b, t);
  }

  // =====================================================================
  // processAssignment
  // =====================================================================

  /** The three extractions of processAssignment on a word, a blank, `c`, a blank, then the rest. */
  lemma AssignmentParts(x: string, c: char, rest: string)
    requires Word(x) && !IsSpace(c)
    ensures AssignmentOf(x + [' ', c, ' '] + rest) == match ExtractInt([' '] + rest) case None => None case Some(v) => Some((x, v))
  {
    var tail := [' ', c, ' '] + rest;
    LeadingWord(x, tail);
    assert x + [' ', c, ' '] + rest == x + tail;
    ExtractCharOf(" ", c, [' '] + rest);
    assert " " + [c] + ([' '] + rest) == tail;
    AssignmentFromParts(x + tail, x, tail, c, [' '] + rest);
  }

  /** processAssignment once its first two extractions are known. */
  lemma AssignmentFromParts(line: string, x: string, rest: string, c: char, after: string)
    requires ExtractWord(line) == Some((x, rest)) && ExtractChar(rest) == Some((c, after))
    ensures AssignmentOf(line) == match ExtractInt(after) case None => None case Some(v) => Some((x, v))
  {
  }

  /** `x = v`, with the blanks around `=`, binds the word `x` to `v`. */
  lemma AssignmentStatement(x: string, v: int)
    requires Word(x) && InInt32(v)
    ensures AssignmentOf(x + " = " + IntToString(v)) == Some((x, v))
  {
    var d := IntToString(v);
    ExtractIntOf(" ", v, "");
    assert " " + d + "" == [' '] + d;
    AssignmentParts(x, '=', d);
  }

  /**
    `x=5` without blanks is a single word: nothing is left for `equals`, so
    `value` is never written and `variables[x] = value` reads it
    uninitialised.
  */
  lemma UnspacedAssignmentIsUndefined(w: string, st: State)
    requires Word(w) && !IsPrintLine(w)
    ensures AssignmentOf(w) == None
    ensures LineStep(w, st) == Undefined(UninitialisedValue(w))
  {
    ExtractWordOf("", w, "");
    assert "" + w + "" == w;
  }

  // =====================================================================
  // processPrint
  // =====================================================================

  lemma ModSmall(x: int)
    requires 0 <= x < SizeModulus
    ensures x % SizeModulus == x
  {
  }

  lemma ModWrap(x: int)
    requires -SizeModulus <= x < 0
    ensures x % SizeModulus == x + SizeModulus
  {
  }

  /** With `(` first at `p` and `)` last at `q` after it, the content is what lies strictly between. */
  lemma PrintContentBetween(line: string, p: nat, q: nat)
    requires |line| < SizeModulus
    requires p < q < |line| && line[p] == '(' && line[q] == ')'
    requires forall j :: 0 <= j < p ==> line[j] != '('
    requires forall j :: q < j < |line| ==> line[j] != ')'
    ensures PrintContent(line) == line[p + 1..q]
  {
    assert FindFirst(line, '(') == Some(p) by {
      FirstAt(line, '(', p);
    }
    assert FindLast(line, ')') == Some(q) by {
      LastAt(line, ')', q);
    }
    var count := q - (p + 1);
    assert (q - (p + 1)) % SizeModulus == count by {
      ModSmall(count);
    }
    ContentCount(line, p + 1, q, count);
    assert Substr(line, p + 1, count) == line[p + 1..q];
  }

  lemma FirstAt(s: string, c: char, p: nat)
    requires p < |s| && s[p] == c && forall j :: 0 <= j < p ==> s[j] != c
    ensures FindFirst(s, c) == Some(p)
  {
  }

  lemma LastAt(s: string, c: char, q: nat)
    requires q < |s| && s[q] == c && forall j :: q < j < |s| ==> s[j] != c
    ensures FindLast(s, c) == Some(q)
  {
  }

  /** `end - start` modulo 2^64 reaches past the end when `end` is `npos` or lies before `start`. */
  lemma CountPastEnd(len: nat, start: nat, end: int)
    requires start <= len < SizeModulus
    requires end == Npos || 0 <= end < start
    ensures (end - start) % SizeModulus >= len - start
  {
    if end == Npos {
      ModSmall(end - start);
    } else {
      ModWrap(end - start);
    }
  }

  /** A `(` and no `)`: `npos - start` reaches past the end. */
  lemma ContentOpenOnly(line: string, start: nat)
    requires |line| < SizeModulus
    requires FindFirst(line, '(').Some? && start == FindFirst(line, '(').value + 1
    requires FindLast(line, ')').None?
    ensures PrintContent(line) == line[start..]
  {
    var count := (Npos - start) % SizeModulus;
    assert start <= |line| && count >= |line| - start by {
      CountPastEnd(|line|, start, Npos);
    }
    assert PrintContent(line) == Substr(line, start, count) by {
      ContentCount(line, start, Npos, count);
    }
    SubstrPastEnd(line, start, count);
  }

  /** processPrint's `substr` call, once `start` and `end` are known. */
  lemma ContentCount(line: string, start: nat, end: int, count: nat)
    requires FindFirst(line, '(').Some? && start == FindFirst(line, '(').value + 1
    requires (FindLast(line, ')').None? && end == Npos) || (FindLast(line, ')').Some? && end == FindLast(line, ')').value)
    requires count == (end - start) % SizeModulus
    ensures PrintContent(line) == Substr(line, start, count)
  {
  }

  /** The last `)` before the first `(`: `end - start` is negative and wraps around. */
  lemma ContentCloseBefore(line: string, start: nat)
    requires |line| < SizeModulus
    requires FindFirst(line, '(').Some? && start == FindFirst(line, '(').value + 1
    requires FindLast(line, ')').Some? && FindLast(line, ')').value < start
    ensures PrintContent(line) == line[start..]
  {
    var end := FindLast(line, ')').value;
    var count := (end - start) % SizeModulus;
    ContentCount(line, start, end, count);
    CountPastEnd(|line|, start, end);
    SubstrPastEnd(line, start, count);
  }

  /** No parentheses at all: the whole line. */
  lemma ContentNoParentheses(line: string)
    requires |line| < SizeModulus
    requires FindFirst(line, '(').None? && FindLast(line, ')').None?
    ensures PrintContent(line) == line
  {
    CountPastEnd(|line|, 0, Npos);
    SubstrPastEnd(line, 0, Npos % SizeModulus);
  }

  /**
    With no `)` after the first `(`, `end - start` wraps around to a count
    past the end, and the content runs to the end of the line.
  */
  lemma PrintContentUnclosed(line: string, start: nat)
    requires |line| < SizeModulus
    requires start == match FindFirst(line, '(') case Some(k) => k + 1 case None => 0
    requires FindLast(line, ')').None? || FindLast(line, ')').value < start
    ensures PrintContent(line) == line[start..]
  {
    if FindFirst(line, '(').None? {
      ContentNoParentheses(line);
      assert line[0..] == line;
    } else if FindLast(line, ')').None? {
      ContentOpenOnly(line, start);
    } else {
      ContentCloseBefore(line, start);
    }
  }

  lemma SubstrPastEnd(s: string, pos: nat, count: nat)
    requires pos <= |s| && count >= |s| - pos
    ensures Substr(s, pos, count) == s[pos..]
  {
  }

  /** A processed print line whose fields are known: the line written and the key touched. */
  lemma PrintStep(line: string, st: State, text: string, identifier: string)
    requires IsPrintLine(line) && PrintFields(PrintContent(line)) == Some((text, identifier))
    ensures LineStep(line, st) == Ok(State(Touch(st.vars, identifier), st.out + [text + " " + IntToString(Get(st.vars, identifier))]))
  {
  }

  /** The line `print(m, x)` of a single-word message `m` and a name `x`. */
  function CallLine(m: string, x: string): string {
    "print(" + m + ", " + x + ")"
  }

  /** The line `print(m , x)`, with a blank before the comma. */
  function SpacedCallLine(m: string, x: string): string {
    "print(" + m + " , " + x + ")"
  }

  /** A line `print(` + `inner` + `)`, with no parentheses in `inner`, prints `inner`. */
  lemma CallContent(inner: string, line: string)
    requires line == "print(" + inner + ")" && |line| < SizeModulus
    requires '(' !in inner && ')' !in inner
    ensures PrintContent(line) == inner
    ensures IsPrintLine(line)
  {
    var q := |line| - 1;
    assert line[..5] == "print" && line[5] == '(' && line[q] == ')';
    assert line[6..q] == inner;
    assert forall j :: 0 <= j < 5 ==> line[j] != '(';
    PrintContentBetween(line, 5, q);
    assert OccursAt(line, "print", 0);
  }

  lemma CallFields(m: string, x: string)
    requires Word(m) && Word(x)
    ensures PrintFields(m + ", " + x) == Some((m, ""))
  {
    assert Word(m + ",");
    ExtractWordOf("", m + ",", " " + x);
    assert "" + (m + ",") + (" " + x) == m + ", " + x;
    ExtractWordOf(" ", x, "");
    assert " " + x + "" == " " + x;
    assert (m + ",")[..|m + ","| - 1] == m;
  }

  /**
    In `print(m, x)` the comma sticks to the first word, so `pop_back`
    removes exactly it, `comma` reads the name, and `identifier` is left
    empty: the line written is `m` and the value of "", never of `x`.
  */
  lemma PrintCallIgnoresName(m: string, x: string, st: State)
    requires Word(m) && Word(x) && '(' !in m && ')' !in m && '(' !in x && ')' !in x
    requires |CallLine(m, x)| < SizeModulus
    ensures PrintFields(PrintContent(CallLine(m, x))) == Some((m, ""))
    ensures LineStep(CallLine(m, x), st) == Ok(State(Touch(st.vars, ""), st.out + [m + " " + IntToString(Get(st.vars, ""))]))
  {
    var inner := m + ", " + x;
    assert CallLine(m, x) == "print(" + inner + ")";
    CallContent(inner, CallLine(m, x));
    CallFields(m, x);
    PrintStep(CallLine(m, x), st, m, "");
  }

  lemma SpacedCallFields(m: string, x: string)
    requires Word(m) && Word(x)
    ensures PrintFields(m + " , " + x) == Some((m[..|m| - 1], x))
  {
    LeadingWord(m, " , " + x);
    assert m + " , " + x == m + (" , " + x);
    BlankThenWord(",", " " + x);
    assert " " + "," + (" " + x) == " , " + x;
    BlankThenWord(x, "");
    assert " " + x + "" == " " + x;
    FieldsOfThreeWords(m + " , " + x, m, " , " + x, ",", " " + x, x, "");
  }

  /** processPrint's fields when the stream holds three words. */
  lemma FieldsOfThreeWords(content: string, text: string, rest: string, comma: string, rest2: string, identifier: string, rest3: string)
    requires ExtractWord(content) == Some((text, rest))
    requires ExtractWord(rest) == Some((comma, rest2))
    requires ExtractWord(rest2) == Some((identifier, rest3))
    ensures PrintFields(content) == Some((text[..|text| - 1], identifier))
  {
  }

  /**
    In `print(m , x)` the comma is its own word and `identifier` is `x`,
    but `pop_back` then removes the last character of `m` instead.
  */
  lemma SpacedPrintCallReadsName(m: string, x: string)
    requires Word(m) && Word(x) && '(' !in m && ')' !in m && '(' !in x && ')' !in x
    requires |SpacedCallLine(m, x)| < SizeModulus
    ensures PrintFields(PrintContent(SpacedCallLine(m, x))) == Some((m[..|m| - 1], x))
  {
    var inner := m + " , " + x;
    assert SpacedCallLine(m, x) == "print(" + inner + ")";
    CallContent(inner, SpacedCallLine(m, x));
    SpacedCallFields(m, x);
  }

  // =====================================================================
  // The loop of main
  // =====================================================================

  /** The name "" is never assigned (assignments bind a whole word), so it holds 0 whenever it is present. */
  lemma EmptyNameStaysZero(line: string, st: State)
    requires Get(st.vars, "") == 0
    ensures LineStep(line, st).Ok? ==> Get(LineStep(line, st).st.vars, "") == 0
  {
  }

  lemma {:induction false} InterpretEmptyNameZero(lines: seq<string>, st: State)
    requires Get(st.vars, "") == 0
    ensures Interpret(lines, st).Ok? ==> Get(Interpret(lines, st).st.vars, "") == 0
    decreases |lines|
  {
    if lines != [] && !Skipped(lines[0]) {
      EmptyNameStaysZero(lines[0], st);
      if LineStep(lines[0], st).Ok? {
        InterpretEmptyNameZero(lines[1..], LineStep(lines[0], st).st);
      }
    } else if lines != [] {
      InterpretEmptyNameZero(lines[1..], st);
    }
  }

  /** So `print(m, x)` in a run that started from an empty map writes `m 0`. */
  lemma PrintCallWritesZero(m: string, x: string, st: State)
    requires Word(m) && Word(x) && '(' !in m && ')' !in m && '(' !in x && ')' !in x
    requires |CallLine(m, x)| < SizeModulus
    requires Get(st.vars, "") == 0
    ensures LineStep(CallLine(m, x), st) == Ok(State(Touch(st.vars, ""), st.out + [m + " 0"]))
  {
    PrintCallIgnoresName(m, x, st);
    ZeroText(m);
  }

  lemma ZeroText(m: string)
    ensures m + " " + IntToString(0) == m + " 0"
  {
    assert IntToString(0) == "0";
  }

  /** The value a processed line binds to `x`, if it is an assignment to `x`. */
  function BindsAt(line: string, x: string): Option<int> {
    if Skipped(line) || IsPrintLine(line) then None
    else
      match AssignmentOf(line)
      case Some((y, v)) => if y == x then Some(v) else None
      case None => None
  }

  /** The value of the last assignment to `x` among `lines`. */
  function LastBinding(lines: seq<string>, x: string): Option<int>
    decreases |lines|
  {
    if lines == [] then None
    else
      match LastBinding(lines[1..], x)
      case Some(v) => Some(v)
      case None => BindsAt(lines[0], x)
  }

  /**
    The value of `x` after one processed line: the assigned value for an
    assignment to `x`; otherwise an old value is kept and a new one is 0.
  */
  lemma StepBinds(line: string, st: State, x: string)
    requires !Skipped(line) && LineStep(line, st).Ok?
    ensures var r := LineStep(line, st).st;
      match BindsAt(line, x)
      case Some(v) => x in r.vars && r.vars[x] == v
      case None => (x in st.vars ==> x in r.vars && r.vars[x] == st.vars[x]) && (x in r.vars && x !in st.vars ==> r.vars[x] == 0)
  {
  }

  /**
    After a run, `x` holds the value of its last assignment; with none, an
    old value is kept, and a value `x` gained (by being printed) is 0.
  */
  lemma {:induction false} InterpretBinds(lines: seq<string>, st: State, x: string)
    ensures Interpret(lines, st).Ok? ==>
      var r := Interpret(lines, st).st;
      match LastBinding(lines, x)
      case Some(v) => x in r.vars && r.vars[x] == v
      case None => (x in st.vars ==> x in r.vars && r.vars[x] == st.vars[x]) && (x in r.vars && x !in st.vars ==> r.vars[x] == 0)
    decreases |lines|
  {
    if lines != [] {
      var rest := lines[1..];
      if Skipped(lines[0]) {
        InterpretBinds(rest, st, x);
      } else if LineStep(lines[0], st).Ok? {
        var st1 := LineStep(lines[0], st).st;
        StepBinds(lines[0], st, x);
        InterpretBinds(rest, st1, x);
      }
    }
  }

  /** The number of processed print lines among `lines`. */
  function PrintCount(lines: seq<string>): nat
    decreases |lines|
  {
    if lines == [] then 0
    else (if !Skipped(lines[0]) && IsPrintLine(lines[0]) then 1 else 0) + PrintCount(lines[1..])
  }

  /** One processed line appends one output line if it is a print, and none otherwise. */
  lemma LineStepOutput(line: string, st: State)
    ensures LineStep(line, st).Ok? ==>
      var r := LineStep(line, st).st;
      |r.out| == |st.out| + (if IsPrintLine(line) then 1 else 0) && r.out[..|st.out|] == st.out
  {
  }

  /** A run writes exactly one line per processed print line and only appends. */
  lemma {:induction false} InterpretOutput(lines: seq<string>, st: State)
    ensures Interpret(lines, st).Ok? ==>
      var r := Interpret(lines, st).st;
      |r.out| == |st.out| + PrintCount(lines) && r.out[..|st.out|] == st.out
    decreases |lines|
  {
    if lines != [] {
      var rest := lines[1..];
      if Skipped(lines[0]) {
        InterpretOutput(rest, st);
      } else if LineStep(lines[0], st).Ok? {
        var st1 := LineStep(lines[0], st).st;
        LineStepOutput(lines[0], st);
        InterpretOutput(rest, st1);
        if Interpret(lines, st).Ok? {
          var r := Interpret(lines, st).st;
          assert r.out[..|st1.out|] == st1.out;
          assert r.out[..|st.out|] == r.out[..|st1.out|][..|st.out|];
        }
      }
    }
  }
}
