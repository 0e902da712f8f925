/**
 * The few pieces of Python's string semantics the model relies on:
 * `str.split()` with no separator, `str.strip()`, `str.endswith`, and the
 * decimal form of `int(str)`.
 */
module Text {
  import opened Wrappers

  /** The characters Python 2's `str.split()` and `str.strip()` treat as whitespace. */
  predicate IsSpace(c: char) {
    c == ' ' || c == '\t' || c == '\n' || c == '\r' || c == '\U{B}' || c == '\U{C}'
  }

  predicate NoSpace(s: string) {
    forall i :: 0 <= i < |s| ==> !IsSpace(s[i])
  }

  /** `s` with its leading whitespace removed. */
  function TrimLeft(s: string): (r: string)
    ensures |r| <= |s|
    ensures r == [] || !IsSpace(r[0])
  {
    if s != [] && IsSpace(s[0]) then TrimLeft(s[1..]) else s
  }

  /** The longest prefix of `s` that holds no whitespace. */
  function Word(s: string): (w: string)
    ensures |w| <= |s|
    ensures s != [] && !IsSpace(s[0]) ==> w != []
  {
    if s == [] || IsSpace(s[0]) then [] else [s[0]] + Word(s[1..])
  }

  /**
   * `s.split()`: the maximal runs of non-whitespace characters, in order.
   * Every field is non-empty and free of whitespace.
   */
  function Split(s: string): (fields: seq<string>)
    ensures forall f :: f in fields ==> f != [] && NoSpace(f)
    decreases |s|
  {
    var t := TrimLeft(s);
    if t == [] then []
    else
      var w := Word(t);
      WordNoSpace(t);
      assert |t[|w|..]| < |s|;
      [w] + Split(t[|w|..])
  }

  lemma {:induction false} WordNoSpace(s: string)
    ensures NoSpace(Word(s))
  {
    if s != [] && !IsSpace(s[0]) {
      WordNoSpace(s[1..]);
    }
  }

  lemma {:induction false} WordOfField(w: string, rest: string)
    requires NoSpace(w)
    requires rest == [] || IsSpace(rest[0])
    ensures Word(w + rest) == w
    decreases |w|
  {
    if w != [] {
      assert (w + rest)[1..] == w[1..] + rest;
      WordOfField(w[1..], rest);
    } else {
      assert w + rest == rest;
    }
  }

  /** Splitting a whitespace-free field followed by a space peels that field off. */
  lemma {:induction false} SplitCons(w: string, rest: string)
    requires w != [] && NoSpace(w)
    ensures Split(w + " " + rest) == [w] + Split(rest)
  {
    var s := w + " " + rest;
    assert TrimLeft(s) == s;
    WordOfField(w, " " + rest);
    assert w + " " + rest == w + (" " + rest);
    assert s[|w|..] == " " + rest;
    assert TrimLeft(" " + rest) == TrimLeft(rest) by {
      assert (" " + rest)[1..] == rest;
    }
  }

  /** A single whitespace-free field splits to itself. */
  lemma SplitSingle(w: string)
    requires w != [] && NoSpace(w)
    ensures Split(w) == [w]
  {
    assert TrimLeft(w) == w;
    WordOfField(w, []);
    assert w + [] == w;
    assert w[|w|..] == [];
  }

  /** `' '.join(parts)` */
  function JoinWithSpaces(parts: seq<string>): string {
    if parts == [] then ""
    else if |parts| == 1 then parts[0]
    else parts[0] + " " + JoinWithSpaces(parts[1..])
  }

  /** Joining four parts puts one space between each pair. */
  lemma JoinFour(a: string, b: string, c: string, d: string)
    ensures JoinWithSpaces([a, b, c, d]) == a + " " + b + " " + c + " " + d
  {
    assert [c, d][1..] == [d];
    assert JoinWithSpaces([c, d]) == c + " " + d;
    assert [b, c, d][1..] == [c, d];
    assert JoinWithSpaces([b, c, d]) == b + " " + (c + " " + d);
    assert [a, b, c, d][1..] == [b, c, d];
    assert JoinWithSpaces([a, b, c, d]) == a + " " + (b + " " + (c + " " + d));
    assert a + " " + (b + " " + (c + " " + d)) == a + " " + b + " " + c + " " + d;
  }

  /** Splitting undoes joining, provided every part is non-empty and free of whitespace. */
  lemma {:induction false} SplitJoin(parts: seq<string>)
    requires forall i :: 0 <= i < |parts| ==> parts[i] != [] && NoSpace(parts[i])
    ensures Split(JoinWithSpaces(parts)) == parts
  {
    if |parts| == 1 {
      SplitSingle(parts[0]);
    } else if |parts| > 1 {
      SplitJoin(parts[1..]);
      SplitCons(parts[0], JoinWithSpaces(parts[1..]));
      assert [parts[0]] + parts[1..] == parts;
    } else {
      assert TrimLeft("") == "";
    }
  }

  /** An empty first part leaves only leading whitespace, which makes no field. */
  lemma SplitJoinEmptyFirst(parts: seq<string>)
    requires parts != []
    ensures Split(JoinWithSpaces([""] + parts)) == Split(JoinWithSpaces(parts))
  {
    var s := JoinWithSpaces(parts);
    assert ([""] + parts)[1..] == parts;
    assert JoinWithSpaces([""] + parts) == " " + s;
    assert (" " + s)[1..] == s;
    assert TrimLeft(" " + s) == TrimLeft(s);
  }

  /** `s.endswith(suffix)` */
  predicate EndsWith(s: string, suffix: string) {
    |suffix| <= |s| && s[|s| - |suffix|..] == suffix
  }

  /** The text after the last occurrence of `sep` in `s` (all of `s` when there is none). */
  function AfterLast(s: string, sep: char): string {
    if s == [] then []
    else if s[|s| - 1] == sep then []
    else AfterLast(s[..|s| - 1], sep) + [s[|s| - 1]]
  }

  /** AfterLast gives a suffix of `s` free of `sep`, preceded by `sep` when shorter than `s`. */
  lemma {:induction false} AfterLastIsLastSegment(s: string, sep: char)
    ensures var r := AfterLast(s, sep);
      && EndsWith(s, r)
      && sep !in r
      && (|r| < |s| ==> s[|s| - |r| - 1] == sep)
  {
    if s != [] && s[|s| - 1] != sep {
      var p := s[..|s| - 1];
      var c := s[|s| - 1];
      AfterLastIsLastSegment(p, sep);
      var r := AfterLast(p, sep);
      assert AfterLast(s, sep) == r + [c];
      assert s == p + [c];
      assert s[|s| - (|r| + 1)..] == p[|p| - |r|..] + [c];
      assert sep !in r + [c];
      assert |r| < |p| ==> s[|s| - |r| - 2] == p[|p| - |r| - 1];
    }
  }

  // ---------------------------------------------------------------------------
  // int(str) in base 10

  predicate IsDigit(c: char) { '0' <= c <= '9' }

  predicate AllDigits(s: string) {
    forall i :: 0 <= i < |s| ==> IsDigit(s[i])
  }

  function DigitValue(c: char): (d: nat)
    requires IsDigit(c)
    ensures d < 10
  {
    (c as int) - ('0' as int)
  }

  function DigitChar(d: nat): (c: char)
    requires d < 10
    ensures IsDigit(c) && DigitValue(c) == d
  {
    ('0' as int + d) as char
  }

  /** The value of a string of decimal digits, most significant first. */
  function DigitsValue(s: string): nat
    requires AllDigits(s)
  {
    if s == [] then 0 else 10 * DigitsValue(s[..|s| - 1]) + DigitValue(s[|s| - 1])
  }

  /** `str(n)` for a natural number: its decimal digits without leading zeros. */
  function Decimal(n: nat): (s: string)
    ensures s != [] && AllDigits(s)
  {
    if n < 10 then [DigitChar(n)] else Decimal(n / 10) + [DigitChar(n % 10)]
  }

  /** `str.strip()` */
  function Strip(s: string): (r: string)
    ensures r == [] || (!IsSpace(r[0]) && !IsSpace(r[|r| - 1]))
  {
    var t := TrimLeft(s);
    TrimRight(t)
  }

  function TrimRight(s: string): (r: string)
    ensures r <= s
    ensures r == [] || !IsSpace(r[|r| - 1])
  {
    if s != [] && IsSpace(s[|s| - 1]) then TrimRight(s[..|s| - 1]) else s
  }

  /**
   * Python 2's `int(s)` in base 10: surrounding whitespace, an optional sign
   * (possibly followed by more whitespace), then one or more decimal digits.
   * Anything else raises ValueError (None).
   */
  function ParseInt(s: string): (r: Option<int>)
    ensures Strip(s) == [] ==> r == None
    ensures Strip(s) != [] && AllDigits(Strip(s)) ==> r == Some(DigitsValue(Strip(s)))
    ensures r.Some? && r.value < 0 ==> Strip(s)[0] == '-'
    ensures r.Some? ==> forall i :: 0 <= i < |Strip(s)| ==> IsDigit(Strip(s)[i]) || IsSign(Strip(s)[i]) || IsSpace(Strip(s)[i])
  {
    var t := Strip(s);
    if t == [] then None
    else if IsSign(t[0]) then
      var digits := TrimLeft(t[1..]);
      if digits != [] && AllDigits(digits) then
        TrimLeftSuffix(t[1..]);
        Some(if t[0] == '-' then 0 - DigitsValue(digits) else DigitsValue(digits))
      else None
    else if AllDigits(t) then Some(DigitsValue(t))
    else None
  }

  /** Python 2 skips whitespace after the sign: `int("- 1") == -1`. */
  lemma ParseIntSpacedSign()
    ensures ParseInt(" - 1 ") == Some(-1)
  {
    assert TrimLeft(" - 1 ") == "- 1 " by {
      assert " - 1 "[1..] == "- 1 ";
    }
    assert TrimRight("- 1 ") == "- 1" by {
      assert "- 1 "[..3] == "- 1";
    }
    assert Strip(" - 1 ") == "-" + " " + "1";
    assert LiteralParts("-", " ", "1", -1);
    LiteralIsParsed(" - 1 ", "-", " ", "1", -1);
  }

  /** A word is not an integer: `int("true")` raises. */
  lemma ParseIntRejectsWord()
    ensures ParseInt("true") == None
  {
    assert Strip("true") == "true";
  }

  predicate IsSign(c: char) { c == '-' || c == '+' }

  predicate AllSpace(s: string) {
    forall i :: 0 <= i < |s| ==> IsSpace(s[i])
  }

  /**
   * The parts of an integer literal of value `v`: an optional sign `p`, then
   * whitespace `w` (only after a sign), then one or more decimal digits `d`.
   */
  predicate LiteralParts(p: string, w: string, d: string, v: int) {
    && (p == [] || p == "-" || p == "+")
    && AllSpace(w) && (p == [] ==> w == [])
    && d != [] && AllDigits(d)
    && v == (if p == "-" then 0 - DigitsValue(d) else DigitsValue(d))
  }

  /** `t` is an integer literal of value `v` in base 10. */
  ghost predicate IsIntLiteral(t: string, v: int) {
    exists p: string, w: string, d: string :: t == p + w + d && LiteralParts(p, w, d, v)
  }

  /** `int(s)` gives `v` exactly when the stripped `s` is a literal of value `v`. */
  lemma ParseIntLiteral(s: string, v: int)
    ensures ParseInt(s) == Some(v) <==> IsIntLiteral(Strip(s), v)
  {
    if ParseInt(s) == Some(v) {
      ParseIntIsLiteral(s, v);
    }
    if IsIntLiteral(Strip(s), v) {
      var p: string, w: string, d: string :| Strip(s) == p + w + d && LiteralParts(p, w, d, v);
      LiteralIsParsed(s, p, w, d, v);
    }
  }

  /** What `int(s)` accepts is a literal of the value it gives. */
  lemma ParseIntIsLiteral(s: string, v: int)
    requires ParseInt(s) == Some(v)
    ensures IsIntLiteral(Strip(s), v)
  {
    var t := Strip(s);
    if IsSign(t[0]) {
      SignedIsLiteral(t, v);
    } else {
      assert t == [] + [] + t;
      assert LiteralParts([], [], t, v);
    }
  }

  /** A sign, then whitespace, then digits is a literal. */
  lemma SignedIsLiteral(t: string, v: int)
    requires t != [] && IsSign(t[0])
    requires TrimLeft(t[1..]) != [] && AllDigits(TrimLeft(t[1..]))
    requires v == (if t[0] == '-' then 0 - DigitsValue(TrimLeft(t[1..])) else DigitsValue(TrimLeft(t[1..])))
    ensures IsIntLiteral(t, v)
  {
    var rest := t[1..];
    var digits := TrimLeft(rest);
    TrimLeftSuffix(rest);
    var p, w := [t[0]], rest[..|rest| - |digits|];
    assert rest == w + digits;
    assert t == p + w + digits;
    assert AllSpace(w);
    assert LiteralParts(p, w, digits, v);
  }

  /** A literal, once stripped, is accepted by `int()` with its value. */
  lemma LiteralIsParsed(s: string, p: string, w: string, d: string, v: int)
    requires Strip(s) == p + w + d && LiteralParts(p, w, d, v)
    ensures ParseInt(s) == Some(v)
  {
    var t := Strip(s);
    if p == [] {
      assert t == d;
    } else {
      assert t[0] == p[0] && t[1..] == w + d;
      SignedIsParsed(s, w, d);
      assert (p == "-") == (t[0] == '-');
    }
  }

  lemma SignedIsParsed(s: string, w: string, d: string)
    requires Strip(s) != [] && IsSign(Strip(s)[0]) && Strip(s)[1..] == w + d
    requires AllSpace(w) && d != [] && AllDigits(d)
    ensures ParseInt(s) == Some(if Strip(s)[0] == '-' then 0 - DigitsValue(d) else DigitsValue(d))
  {
    TrimLeftSpaces(w, d);
  }

  /** TrimLeft removes a run of whitespace in front of a word. */
  lemma {:induction false} TrimLeftSpaces(w: string, d: string)
    requires AllSpace(w) && (d == [] || !IsSpace(d[0]))
    ensures TrimLeft(w + d) == d
  {
    if w != [] {
      assert (w + d)[1..] == w[1..] + d;
      TrimLeftSpaces(w[1..], d);
    }
  }

  /** What TrimLeft removes is whitespace, and what it keeps is the rest of `s`. */
  lemma {:induction false} TrimLeftSuffix(s: string)
    ensures var r := TrimLeft(s);
      && r == s[|s| - |r|..]
      && forall i :: 0 <= i < |s| - |r| ==> IsSpace(s[i])
  {
    if s != [] && IsSpace(s[0]) {
      TrimLeftSuffix(s[1..]);
      var r := TrimLeft(s);
      forall i | 0 < i < |s| - |r|
        ensures IsSpace(s[i])
      {
        assert s[i] == s[1..][i - 1];
      }
    }
  }

  /** `str(n)` for any integer. */
  function IntToString(n: int): (s: string)
    ensures s != []
  {
    if n < 0 then "-" + Decimal(-n) else Decimal(n)
  }

  lemma {:induction false} DecimalValue(n: nat)
    ensures DigitsValue(Decimal(n)) == n
  {
    if n >= 10 {
      var s := Decimal(n);
      assert s[..|s| - 1] == Decimal(n / 10);
      DecimalValue(n / 10);
    }
  }

  lemma StripUnpadded(s: string)
    requires s != [] && !IsSpace(s[0]) && !IsSpace(s[|s| - 1])
    ensures Strip(s) == s
  {
    assert TrimLeft(s) == s;
    assert TrimRight(s) == s;
  }

  /** A sign followed by digits, with no whitespace, is left as it is by `strip()`. */
  lemma LiteralIsStripped(p: string, d: string)
    requires p == [] || p == "-"
    requires d != [] && AllDigits(d)
    ensures Strip(p + [] + d) == p + [] + d
  {
    var s := p + [] + d;
    assert s[|s| - 1] == d[|d| - 1];
    assert s[0] == (if p == [] then d[0] else '-');
    StripUnpadded(s);
  }

  /** `int(str(n)) == n`: the decimal form of every integer parses back to it. */
  lemma ParseIntOfString(n: int)
    ensures ParseInt(IntToString(n)) == Some(n)
  {
    var s := IntToString(n);
    var m: nat := if n < 0 then -n else n;
    var d := Decimal(m);
    var p := if n < 0 then "-" else "";
    assert s == p + [] + d;
    DecimalValue(m);
    assert LiteralParts(p, [], d, n);
    LiteralIsStripped(p, d);
    LiteralIsParsed(s, p, [], d, n);
  }
}
