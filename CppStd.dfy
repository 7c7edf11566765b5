/**
  The pieces of the C++ standard library that the four interpreters lean on,
  stated over Dafny strings: the "C" locale character classes of <cctype>,
  the 32-bit `int` range, `std::to_string`, `std::stoi`, `std::getline`,
  the formatted extractors `operator>>` of <istream> for `int`, `char` and
  `std::string`, and the inserting `operator[]` of the map containers.
*/
module CppStd {
  import opened Wrappers

  // ---------------------------------------------------------------------
  // <cctype> in the "C" locale
  // ---------------------------------------------------------------------

  /** `isspace`: blank, tab, newline, vertical tab, form feed, carriage return. */
  predicate IsSpace(c: char) {
    c == ' ' || c == '\t' || c == '\n' || c == '\U{000B}' || c == '\U{000C}' || c == '\r'
  }

  predicate IsDigit(c: char) { '0' <= c <= '9' }

  predicate IsAlpha(c: char) { 'a' <= c <= 'z' || 'A' <= c <= 'Z' }

  predicate IsAlnum(c: char) { IsDigit(c) || IsAlpha(c) }

  // ---------------------------------------------------------------------
  // 32-bit int
  // ---------------------------------------------------------------------

  const INT_MAX: int := 0x7FFF_FFFF
  const INT_MIN: int := -0x8000_0000

  predicate InInt32(x: int) { INT_MIN <= x <= INT_MAX }

  /** The value a stream extractor stores when the text is out of `int` range. */
  function Clamp32(x: int): (r: int)
    ensures InInt32(r)
    ensures InInt32(x) ==> r == x
    ensures x > INT_MAX ==> r == INT_MAX
    ensures x < INT_MIN ==> r == INT_MIN
  {
    if x > INT_MAX then INT_MAX else if x < INT_MIN then INT_MIN else x
  }

  // ---------------------------------------------------------------------
  // Decimal text
  // ---------------------------------------------------------------------

  predicate AllDigits(s: string) {
    forall k :: 0 <= k < |s| ==> IsDigit(s[k])
  }

  function DigitValue(c: char): (d: nat)
    requires IsDigit(c)
    ensures d < 10
  {
    (c as int) - ('0' as int)
  }

  function DigitChar(d: nat): (c: char)
    requires d < 10
    ensures IsDigit(c) && DigitValue(c) == d
  {
    (('0' as int) + d) as char
  }

  /** The value of a string of decimal digits, most significant first. */
  function DecimalValue(s: string): nat
    requires AllDigits(s)
    decreases |s|
  {
    if s == [] then 0 else 10 * DecimalValue(s[..|s| - 1]) + DigitValue(s[|s| - 1])
  }

  /** Decimal text without superfluous leading zeros, as `std::to_string` writes it. */
  predicate Canonical(s: string) {
    |s| > 0 && AllDigits(s) && (s[0] == '0' ==> |s| == 1)
  }

  /** `std::to_string` of a non-negative value. */
  function NatToString(n: nat): (r: string)
    ensures |r| > 0 && AllDigits(r)
    decreases n
  {
    if n < 10 then [DigitChar(n)] else NatToString(n / 10) + [DigitChar(n % 10)]
  }

  /** `std::to_string(int)`, which is also what `operator<<(int)` writes. */
  function IntToString(i: int): (r: string)
    ensures |r| > 0
    ensures i >= 0 ==> Canonical(r) && DecimalValue(r) == i
    ensures i < 0 ==> r[0] == '-' && Canonical(r[1..]) && DecimalValue(r[1..]) == -i
  {
    NatToStringDecimal(if i < 0 then -i else i);
    NatToStringCanonical(if i < 0 then -i else i);
    if i < 0 then "-" + NatToString(-i) else NatToString(i)
  }

  lemma {:induction false} NatToStringDecimal(n: nat)
    ensures DecimalValue(NatToString(n)) == n
    decreases n
  {
    var r := NatToString(n);
    if n >= 10 {
      NatToStringDecimal(n / 10);
      assert r[..|r| - 1] == NatToString(n / 10);
    }
  }

  lemma {:induction false} NatToStringCanonical(n: nat)
    ensures Canonical(NatToString(n))
    decreases n
  {
    if n >= 10 {
      NatToStringCanonical(n / 10);
      NatToStringNonZeroLead(n / 10);
    }
  }

  lemma {:induction false} NatToStringNonZeroLead(n: nat)
    requires n > 0
    ensures NatToString(n)[0] != '0'
    decreases n
  {
    if n >= 10 {
      NatToStringNonZeroLead(n / 10);
    }
  }

  /** Canonical decimal text is exactly what `std::to_string` makes of its value. */
  lemma {:induction false} CanonicalIsNatToString(s: string)
    requires Canonical(s)
    ensures NatToString(DecimalValue(s)) == s
    decreases |s|
  {
    if |s| > 1 {
      var p := s[..|s| - 1];
      assert Canonical(p);
      CanonicalIsNatToString(p);
      LeadingNonZeroValue(p);
      assert DecimalValue(s) / 10 == DecimalValue(p);
      assert DecimalValue(s) % 10 == DigitValue(s[|s| - 1]);
    }
  }

  lemma {:induction false} LeadingNonZeroValue(s: string)
    requires |s| > 0 && AllDigits(s) && s[0] != '0'
    ensures DecimalValue(s) >= 1
    decreases |s|
  {
    if |s| > 1 {
      LeadingNonZeroValue(s[..|s| - 1]);
    }
  }

  // ---------------------------------------------------------------------
  // Runs and searches over a string
  // ---------------------------------------------------------------------

  /** Length of the longest prefix made of decimal digits. */
  function DigitRun(s: string): (n: nat)
    ensures n <= |s| && AllDigits(s[..n])
    ensures n < |s| ==> !IsDigit(s[n])
    decreases |s|
  {
    if s != [] && IsDigit(s[0]) then 1 + DigitRun(s[1..]) else 0
  }

  /** Length of the longest prefix made of letters and digits. */
  function AlnumRun(s: string): (n: nat)
    ensures n <= |s|
    ensures forall k :: 0 <= k < n ==> IsAlnum(s[k])
    ensures n < |s| ==> !IsAlnum(s[n])
    decreases |s|
  {
    if s != [] && IsAlnum(s[0]) then 1 + AlnumRun(s[1..]) else 0
  }

  /** Length of the longest prefix of white space. */
  function SpaceRun(s: string): (n: nat)
    ensures n <= |s|
    ensures forall k :: 0 <= k < n ==> IsSpace(s[k])
    ensures n < |s| ==> !IsSpace(s[n])
    decreases |s|
  {
    if s != [] && IsSpace(s[0]) then 1 + SpaceRun(s[1..]) else 0
  }

  /** Length of the longest prefix without white space. */
  function WordRun(s: string): (n: nat)
    ensures n <= |s|
    ensures forall k :: 0 <= k < n ==> !IsSpace(s[k])
    ensures n < |s| ==> IsSpace(s[n])
    decreases |s|
  {
    if s != [] && !IsSpace(s[0]) then 1 + WordRun(s[1..]) else 0
  }

  /** Index of the first `c` in `s`, or `|s|` when there is none. */
  function IndexOf(s: string, c: char): (k: nat)
    ensures k <= |s|
    ensures forall j :: 0 <= j < k ==> s[j] != c
    ensures k < |s| ==> s[k] == c
    decreases |s|
  {
    if s == [] then 0 else if s[0] == c then 0 else 1 + IndexOf(s[1..], c)
  }

  // ---------------------------------------------------------------------
  // <string> and <istream> operations
  // ---------------------------------------------------------------------

  /**
    `std::getline(is, str, delim)`: the characters before the first `delim`
    (or all of them), and how many characters are extracted from the stream,
    the delimiter included when there is one.
  */
  function Getline(s: string, delim: char): (r: (string, nat))
    ensures |r.0| <= |s| && delim !in r.0 && r.0 == s[..|r.0|]
    ensures (r.1 == |r.0| + 1 <= |s| && s[|r.0|] == delim) || (r.1 == |r.0| == |s|)
  {
    var k := IndexOf(s, delim);
    (s[..k], if k < |s| then k + 1 else k)
  }

  /**
    `std::stoi(s)`: what `strtol(s, &end, 10)` reads (leading white space, an
    optional sign, at least one digit), or `None` where `stoi` throws
    `std::invalid_argument` (no digits) or `std::out_of_range` (not an `int`).
  */
  function Stoi(s: string): (r: Option<int>)
    ensures r.Some? ==> InInt32(r.value)
  {
    var t := s[SpaceRun(s)..];
    var signed := |t| > 0 && (t[0] == '+' || t[0] == '-');
    var u := if signed then t[1..] else t;
    var n := DigitRun(u);
    if n == 0 then None
    else
      var v: int := DecimalValue(u[..n]);
      var x: int := if signed && t[0] == '-' then -v else v;
      if InInt32(x) then Some(x) else None
  }

  /** `std::stoi` reads back what `std::to_string` wrote. */
  lemma StoiOfNatToString(n: nat)
    requires n <= INT_MAX
    ensures Stoi(NatToString(n)) == Some(n)
  {
    var s := NatToString(n);
    NatToStringDecimal(n);
    assert !IsSpace(s[0]);
    assert s[SpaceRun(s)..] == s;
    assert DigitRun(s) == |s|;
    assert s[..|s|] == s;
  }

  /** The text after an optional leading `+` or `-`. */
  function Unsigned(t: string): string {
    if |t| > 0 && (t[0] == '+' || t[0] == '-') then t[1..] else t
  }

  /**
    `is >> i` for an `int` with `skipws` set, as libstdc++ performs it: None
    when nothing but white space is left (the sentry fails and `i` is not
    written); otherwise the optionally signed digit run, 0 when there are no
    digits, and the nearest `int` when the value is out of range.
  */
  function ExtractInt(s: string): (r: Option<int>)
    ensures r.Some? ==> InInt32(r.value)
    ensures r.None? <==> SpaceRun(s) == |s|
    ensures SpaceRun(s) < |s| && DigitRun(Unsigned(s[SpaceRun(s)..])) == 0 ==> r == Some(0)
  {
    var t := s[SpaceRun(s)..];
    if t == [] then None
    else
      var signed := t[0] == '+' || t[0] == '-';
      var u := if signed then t[1..] else t;
      var n := DigitRun(u);
      if n == 0 then Some(0)
      else
        var v: int := DecimalValue(u[..n]);
        var x: int := if signed && t[0] == '-' then -v else v;
        Some(Clamp32(x))
  }

  /**
    `is >> word` for a `std::string` with `skipws` set: the next
    white-space-delimited word and the text after it, or None when only white
    space is left (the sentry fails and the string is left as it was).
  */
  function ExtractWord(s: string): (r: Option<(string, string)>)
    ensures r.None? <==> SpaceRun(s) == |s|
    ensures r.Some? ==> |r.value.0| > 0 && forall k :: 0 <= k < |r.value.0| ==> !IsSpace(r.value.0[k])
    ensures r.Some? ==> r.value.1 == [] || IsSpace(r.value.1[0])
  {
    var t := s[SpaceRun(s)..];
    if t == [] then None
    else
      var n := WordRun(t);
      Some((t[..n], t[n..]))
  }

  /** `is >> c` for a `char` with `skipws` set: the next non-blank character and the text after it. */
  function ExtractChar(s: string): (r: Option<(char, string)>)
    ensures r.None? <==> SpaceRun(s) == |s|
    ensures r.Some? ==> !IsSpace(r.value.0)
  {
    var t := s[SpaceRun(s)..];
    if t == [] then None else Some((t[0], t[1..]))
  }

  /** `std::to_string(INT_MAX)`: what a NUM token holds after `>> int` overflowed and stored INT_MAX. */
  const IntMaxText: string := "2147483647"

  /** The NUM text for a digit run too large for `int` is `std::to_string(INT_MAX)`. */
  lemma IntMaxTextIsToString()
    ensures NatToString(INT_MAX) == IntMaxText
    ensures Canonical(IntMaxText) && DecimalValue(IntMaxText) == INT_MAX
  {
    assert NatToString(2) == "2";
    assert NatToString(21) == "21";
    assert NatToString(214) == "214";
    assert NatToString(2147) == "2147";
    assert NatToString(21474) == "21474";
    assert NatToString(214748) == "214748";
    assert NatToString(2147483) == "2147483";
    assert NatToString(21474836) == "21474836";
    assert NatToString(214748364) == "214748364";
    assert NatToString(INT_MAX) == IntMaxText;
    NatToStringCanonical(INT_MAX);
    NatToStringDecimal(INT_MAX);
  }

  /** The NUM text for an overflowed digit run is canonical decimal text of INT_MAX. */
  lemma IntMaxTextValue()
    ensures Canonical(IntMaxText) && DecimalValue(IntMaxText) == INT_MAX
  {
    IntMaxTextIsToString();
  }

  /** `n` is the length of the digit run at the front of `s`. */
  lemma DigitRunMaximal(s: string, n: nat)
    requires n <= |s| && AllDigits(s[..n]) && (n < |s| ==> !IsDigit(s[n]))
    ensures DigitRun(s) == n
  {
    var m := DigitRun(s);
    assert forall k :: 0 <= k < n ==> IsDigit(s[..n][k]) && s[..n][k] == s[k];
    assert forall k :: 0 <= k < m ==> IsDigit(s[..m][k]) && s[..m][k] == s[k];
  }

  /** `m[k]` of a `std::map` or `std::unordered_map<std::string, int>` read as a value: 0 when `k` is absent. */
  function Get(m: map<string, int>, k: string): int {
    if k in m then m[k] else 0
  }

  /** The map after `m[k]` has been evaluated: `operator[]` inserts a zero value for an absent key. */
  function Touch(m: map<string, int>, k: string): (r: map<string, int>)
    ensures r == m[k := Get(m, k)]
  {
    if k in m then m else m[k := 0]
  }

  /** `s.find(pat) != std::string::npos`. */
  predicate Contains(s: string, pat: string) {
    exists k :: 0 <= k <= |s| - |pat| && OccursAt(s, pat, k)
  }

  predicate OccursAt(s: string, pat: string, k: nat) {
    k + |pat| <= |s| && s[k..k + |pat|] == pat
  }

  /** `s.find(c)` as an index, or None for `npos`. */
  function FindFirst(s: string, c: char): (r: Option<nat>)
    ensures r.Some? ==> r.value < |s| && s[r.value] == c && forall j :: 0 <= j < r.value ==> s[j] != c
    ensures r.None? ==> forall j :: 0 <= j < |s| ==> s[j] != c
  {
    var k := IndexOf(s, c);
    if k < |s| then Some(k) else None
  }

  /** `s.find_last_of(c)` as an index, or None for `npos`. */
  function FindLast(s: string, c: char): (r: Option<nat>)
    ensures r.Some? ==> r.value < |s| && s[r.value] == c && forall j :: r.value < j < |s| ==> s[j] != c
    ensures r.None? ==> forall j :: 0 <= j < |s| ==> s[j] != c
    decreases |s|
  {
    if s == [] then None
    else if s[|s| - 1] == c then Some(|s| - 1)
    else FindLast(s[..|s| - 1], c)
  }
}
