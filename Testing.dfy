/**
  testing.cpp: a line interpreter with no tokens. Each line of the input
  file is an assignment `name = value` read with stream extraction, or, when
  it contains `print`, a print of the text between the parentheses. The
  global `std::map variables` and the lines written to standard output are
  the fields of an Interpreter object.
*/
module Testing {
  import opened Wrappers
  import opened CppStd

  // =====================================================================
  // What one line does
  // =====================================================================

  /** The global `variables` map and the lines written to `std::cout`. */
  datatype State = State(vars: map<string, int>, out: seq<string>)

  /**
    The undefined behaviour that stops the model: `value` read while
    uninitialised (the stream failed before `>> value`), or `pop_back` on an
    empty `text`.
  */
  datatype Fault = UninitialisedValue(line: string) | PopBackEmpty(line: string)

  /** The state after some lines, or the undefined behaviour that ended the run. */
  datatype Outcome = Ok(st: State) | Undefined(fault: Fault)

  /**
    `stream >> identifier >> equals >> value` of processAssignment: the
    first word, any one non-blank character, then an `int` (0 when no digits
    follow, INT_MAX or INT_MIN when out of range). None when the stream
    reaches the end before `value`, which is then never written.
  */
  function AssignmentOf(line: string): (r: Option<(string, int)>)
    ensures r.Some? ==> |r.value.0| > 0 && InInt32(r.value.1)
  {
    match ExtractWord(line)
    case None => None
    case Some((identifier, rest)) =>
      match ExtractChar(rest)
      case None => None
      case Some((_, after)) =>
        match ExtractInt(after)
        case None => None
        case Some(value) => Some((identifier, value))
  }

  /** `std::string::npos`, and the modulus of `size_t` arithmetic. */
  const SizeModulus: int := 0x1_0000_0000_0000_0000
  const Npos: int := SizeModulus - 1

  /** `s.substr(pos, count)` for `pos <= s.size()`: at most `count` characters from `pos`. */
  function Substr(s: string, pos: nat, count: nat): (r: string)
    requires pos <= |s|
    ensures r == s[pos..pos + (if count < |s| - pos then count else |s| - pos)]
  {
    if count < |s| - pos then s[pos..pos + count] else s[pos..]
  }

  /**
    The `content` of processPrint: `start` is one past the first `(` (so 0
    when there is none, as `npos + 1` wraps), `end` the last `)` or `npos`,
    and `end - start` is taken modulo 2^64.
  */
  function PrintContent(line: string): string {
    var start := match FindFirst(line, '(') case Some(k) => k + 1 case None => 0;
    var end := match FindLast(line, ')') case Some(k) => k case None => Npos;
    Substr(line, start, (end - start) % SizeModulus)
  }

  /**
    `stream >> text >> comma >> identifier` on the content, then
    `text.pop_back()`: the first word without its last character, and the
    third word (or "" once the stream has failed). None when there is no
    first word, so `pop_back` is applied to an empty string.
  */
  function PrintFields(content: string): (r: Option<(string, string)>)
  {
    match ExtractWord(content)
    case None => None
    case Some((text, rest)) =>
      var identifier :=
        match ExtractWord(rest)
        case None => ""
        case Some((_, rest2)) => match ExtractWord(rest2) case None => "" case Some((w, _)) => w;
      Some((text[..|text| - 1], identifier))
  }

  /** processAssignment: `variables[identifier] = value`. */
  function AssignLine(line: string, st: State): (r: Outcome)
    ensures r.Ok? ==> r.st.out == st.out
  {
    match AssignmentOf(line)
    case None => Undefined(UninitialisedValue(line))
    case Some((x, v)) => Ok(State(st.vars[x := v], st.out))
  }

  /** processPrint: one output line `text value`, where `variables[identifier]` inserts 0 for a new name. */
  function PrintLine(line: string, st: State): (r: Outcome)
    ensures r.Ok? ==> |r.st.out| == |st.out| + 1 && r.st.out[..|st.out|] == st.out
  {
    match PrintFields(PrintContent(line))
    case None => Undefined(PopBackEmpty(line))
    case Some((text, identifier)) =>
      Ok(State(Touch(st.vars, identifier), st.out + [text + " " + IntToString(Get(st.vars, identifier))]))
  }

  /** Whether processLine treats the line as a print: it contains `print` anywhere. */
  predicate IsPrintLine(line: string) {
    Contains(line, "print")
  }

  /** processLine. */
  function LineStep(line: string, st: State): Outcome {
    if IsPrintLine(line) then PrintLine(line, st) else AssignLine(line, st)
  }

  /** The lines `main` skips: empty ones and those starting with `#`. */
  predicate Skipped(line: string) {
    line == [] || line[0] == '#'
  }

  /** The lines `std::getline` reads from the file text, without their newlines. */
  function Lines(text: string): (r: seq<string>)
    decreases |text|
  {
    if text == [] then []
    else
      var (line, n) := Getline(text, '\n');
      [line] + Lines(text[n..])
  }

  /** The loop of `main` over `lines`, from the state `st`. */
  function Interpret(lines: seq<string>, st: State): Outcome
    decreases |lines|
  {
    if lines == [] then Ok(st)
    else if Skipped(lines[0]) then Interpret(lines[1..], st)
    else
      match LineStep(lines[0], st)
      case Undefined(f) => Undefined(f)
      case Ok(st1) => Interpret(lines[1..], st1)
  }

  /** The `getline` loop of `main` read directly off the file text from the state `st`. */
  function RunText(text: string, st: State): Outcome
    decreases |text|
  {
    if text == [] then Ok(st)
    else
      var (line, n) := Getline(text, '\n');
      if Skipped(line) then RunText(text[n..], st)
      else
        match LineStep(line, st)
        case Undefined(f) => Undefined(f)
        case Ok(st1) => RunText(text[n..], st1)
  }

  /** Reading the text line by line is running its lines. */
  lemma {:induction false} RunTextIsInterpret(text: string, st: State)
    ensures RunText(text, st) == Interpret(Lines(text), st)
    decreases |text|
  {
    if text != [] {
      var (line, n) := Getline(text, '\n');
      var rest := Lines(text[n..]);
      assert Lines(text) == [line] + rest;
      assert ([line] + rest)[0] == line && ([line] + rest)[1..] == rest;
      if Skipped(line) {
        RunTextIsInterpret(text[n..], st);
      } else if LineStep(line, st).Ok? {
        RunTextIsInterpret(text[n..], LineStep(line, st).st);
      }
    }
  }

  /** What a method call reports: no fault and the new state, or the fault. */
  function Report(fault: Option<Fault>, st: State): Outcome {
    if fault.None? then Ok(st) else Undefined(fault.value)
  }

  // =====================================================================
  // The interpreter object
  // =====================================================================

  class Interpreter {
    var variables: map<string, int>
    var output: seq<string>

    constructor ()
      ensures variables == map[] && output == []
    {
      variables := map[];
      output := [];
    }

    function Snapshot(): State
      reads this
    {
      State(variables, output)
    }

    method ProcessAssignment(line: string) returns (fault: Option<Fault>)
      modifies this
      ensures Report(fault, Snapshot()) == AssignLine(line, old(Snapshot()))
    {
      var word := ExtractWord(line);
      if word.None? {
        return Some(UninitialisedValue(line));
      }
      var (identifier, rest) := word.value;
      var equals := ExtractChar(rest);
      if equals.None? {
        return Some(UninitialisedValue(line));
      }
      var value := ExtractInt(equals.value.1);
      if value.None? {
        return Some(UninitialisedValue(line));
      }
      variables := variables[identifier := value.value];
      fault := None;
    }

    method ProcessPrint(line: string) returns (fault: Option<Fault>)
      modifies this
      ensures Report(fault, Snapshot()) == PrintLine(line, old(Snapshot()))
    {
      var open := FindFirst(line, '(');
      var start := if open.Some? then open.value + 1 else 0;
      var close := FindLast(line, ')');
      var end := if close.Some? then close.value else Npos;
      var content := Substr(line, start, (end - start) % SizeModulus);
      assert content == PrintContent(line);
      var fields := PrintFields(content);
      if fields.None? {
        return Some(PopBackEmpty(line));
      }
      var (text, identifier) := fields.value;
      output := output + [text + " " + IntToString(Get(variables, identifier))];
      variables := Touch(variables, identifier);
      fault := None;
    }

    method ProcessLine(line: string) returns (fault: Option<Fault>)
      modifies this
      ensures Report(fault, Snapshot()) == LineStep(line, old(Snapshot()))
    {
      if Contains(line, "print") {
        fault := ProcessPrint(line);
      } else {
        fault := ProcessAssignment(line);
      }
    }

    /** The `getline` loop of `main` over the text of the input file. */
    method Run(text: string) returns (fault: Option<Fault>)
      modifies this
      ensures Report(fault, Snapshot()) == RunText(text, old(Snapshot()))
      ensures Report(fault, Snapshot()) == Interpret(Lines(text), old(Snapshot()))
    {
      RunTextIsInterpret(text, Snapshot());
      var pos := 0;
      fault := None;
      while pos < |text|
        invariant pos <= |text| && fault.None?
        invariant RunText(text[pos..], Snapshot()) == RunText(text, old(Snapshot()))
        decreases |text| - pos
      {
        pos, fault := RunLine(text, pos);
        if fault.Some? {
          return;
        }
      }
      assert text[pos..] == [];
    }

    /** One turn of the loop of `main`: `getline`, then the line skipped or processed. */
    method RunLine(text: string, pos: nat) returns (next: nat, fault: Option<Fault>)
      requires pos < |text|
      modifies this
      ensures pos < next <= |text|
      ensures fault.None? ==> RunText(text[next..], Snapshot()) == RunText(text[pos..], old(Snapshot()))
      ensures fault.Some? ==> Report(fault, Snapshot()) == RunText(text[pos..], old(Snapshot()))
    {
      var (line, n) := Getline(text[pos..], '\n');
      next := pos + n;
      assert text[pos..][n..] == text[next..];
      fault := None;
      if line == [] || line[0] == '#' {
        return;
      }
      fault := ProcessLine(line);
    }
  }
}
