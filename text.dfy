/** JavaScript string operations the wrapper relies on: `trim`, `split`, `indexOf`,
    `toLowerCase` (ASCII part), `parseInt(s, 10)` and decimal rendering of integers. */
module Text {

  datatype Option<+T> = None | Some(value: T)

  /** The code points JavaScript's `trim()` removes and its `\s` class matches:
      WhiteSpace and LineTerminator of ECMA-262. */
  predicate IsJsSpace(c: char) {
    c == '\t' || c == '\n' || c == '\U{000B}' || c == '\U{000C}' || c == '\r' || c == ' '
    || c == '\U{00A0}' || c == '\U{1680}' || ('\U{2000}' <= c <= '\U{200A}')
    || c == '\U{2028}' || c == '\U{2029}' || c == '\U{202F}' || c == '\U{205F}'
    || c == '\U{3000}' || c == '\U{FEFF}'
  }

  /** The code points a regular-expression `.` does not match. */
  predicate IsLineTerminator(c: char) {
    c == '\n' || c == '\r' || c == '\U{2028}' || c == '\U{2029}'
  }

  predicate NoLineTerminator(s: string) {
    forall i :: 0 <= i < |s| ==> !IsLineTerminator(s[i])
  }

  /** `trimStart()`: drops the leading white space and nothing else. */
  function TrimStart(s: string): (r: string)
    ensures |r| <= |s| && r == s[|s| - |r|..]
    ensures r == [] || !IsJsSpace(r[0])
  {
    if s != [] && IsJsSpace(s[0]) then TrimStart(s[1..]) else s
  }

  /** Everything `trimStart()` cuts away is white space. */
  lemma {:induction false} TrimStartSkipsSpace(s: string)
    ensures forall i :: 0 <= i < |s| - |TrimStart(s)| ==> IsJsSpace(s[i])
  {
    if s != [] && IsJsSpace(s[0]) {
      TrimStartSkipsSpace(s[1..]);
      assert forall i :: 1 <= i < |s| - |TrimStart(s)| ==> s[i] == s[1..][i - 1];
    }
  }

  /** `trimEnd()`: drops the trailing white space and nothing else. */
  function TrimEnd(s: string): (r: string)
    ensures |r| <= |s| && r == s[..|r|]
    ensures r == [] || !IsJsSpace(r[|r| - 1])
    ensures forall i :: |r| <= i < |s| ==> IsJsSpace(s[i])
  {
    if s != [] && IsJsSpace(s[|s| - 1]) then
      var r := TrimEnd(s[..|s| - 1]);
      assert forall i :: |r| <= i < |s| - 1 ==> s[i] == s[..|s| - 1][i];
      r
    else s
  }

  /** `trim()`: the result is a contiguous piece of `s` with white space on neither edge,
      and everything cut away is white space. */
  function Trim(s: string): (r: string)
    ensures |r| <= |s|
    ensures forall c :: c in r ==> c in s
    ensures r == [] || (!IsJsSpace(r[0]) && !IsJsSpace(r[|r| - 1]))
  {
    var t := TrimStart(s);
    var r := TrimEnd(t);
    TrimKeepsChars(s, t, r);
    r
  }

  /** `trim()` cuts white space from the two edges and nowhere else: the result is the
      piece of `s` between a white-space prefix and a white-space suffix. */
  lemma TrimCutsEdges(s: string)
    ensures TrimmedFrom(s, Trim(s))
  {
    TrimStartSkipsSpace(s);
    TrimIsPiece(s, TrimStart(s), TrimEnd(TrimStart(s)));
  }

  /** `trim()` gives "" exactly for a string of white space alone. */
  lemma TrimBlank(s: string)
    ensures Trim(s) == [] <==> AllSpace(s)
  {
    var t := TrimStart(s);
    TrimStartSkipsSpace(s);
    assert Trim(s) == TrimEnd(t);
    assert TrimEnd(t) == [] ==> t == [];
    assert AllSpace(s) ==> t == [] by {
      if t != [] {
        assert t[0] == s[|s| - |t|];
      }
    }
  }

  predicate AllSpace(s: string) {
    forall i :: 0 <= i < |s| ==> IsJsSpace(s[i])
  }

  /** `r` is what is left of `s` once white space is cut from its two edges, and only there. */
  ghost predicate TrimmedFrom(s: string, r: string) {
    exists a: nat, b: nat :: a <= b <= |s| && r == s[a..b] && AllSpace(s[..a]) && AllSpace(s[b..])
  }

  lemma TrimIsPiece(s: string, t: string, r: string)
    requires |t| <= |s| && t == s[|s| - |t|..] && forall i :: 0 <= i < |s| - |t| ==> IsJsSpace(s[i])
    requires |r| <= |t| && r == t[..|r|] && forall i :: |r| <= i < |t| ==> IsJsSpace(t[i])
    ensures TrimmedFrom(s, r)
  {
    var a := |s| - |t|;
    var b := a + |r|;
    assert r == s[a..b];
    assert AllSpace(s[b..]) by {
      forall i | 0 <= i < |s| - b ensures IsJsSpace(s[b..][i]) {
        assert s[b..][i] == t[|r| + i];
      }
    }
    assert AllSpace(s[..a]);
  }

  lemma TrimKeepsChars(s: string, t: string, r: string)
    requires |t| <= |s| && t == s[|s| - |t|..]
    requires |r| <= |t| && r == t[..|r|]
    ensures forall c :: c in r ==> c in s
  {
    forall c | c in r
      ensures c in s
    {
      var i :| 0 <= i < |r| && r[i] == c;
      assert s[|s| - |t| + i] == c;
    }
  }

  /** A string with no white space on its edges is its own trim. */
  lemma TrimFixed(s: string)
    requires s == [] || (!IsJsSpace(s[0]) && !IsJsSpace(s[|s| - 1]))
    ensures Trim(s) == s
  {
    assert TrimStart(s) == s;
  }

  /** Trimming twice is trimming once. */
  lemma TrimIdempotent(s: string)
    ensures Trim(Trim(s)) == Trim(s)
  {
    TrimFixed(Trim(s));
  }

  function LowerChar(c: char): char {
    if 'A' <= c <= 'Z' then (c as int + 32) as char else c
  }

  /** `toLowerCase()` restricted to the ASCII letters. */
  function ToLowerAscii(s: string): (r: string)
    ensures |r| == |s|
    ensures forall i :: 0 <= i < |s| ==> r[i] == LowerChar(s[i])
  {
    if s == [] then [] else [LowerChar(s[0])] + ToLowerAscii(s[1..])
  }

  predicate StartsWith(s: string, p: string) {
    |p| <= |s| && s[..|p|] == p
  }

  predicate EndsWith(s: string, p: string) {
    |p| <= |s| && s[|s| - |p|..] == p
  }

  predicate OccursAt(s: string, t: string, i: nat) {
    i + |t| <= |s| && s[i..i + |t|] == t
  }

  /** `s.includes(t)`. */
  ghost predicate Contains(s: string, t: string) {
    exists i: nat :: OccursAt(s, t, i)
  }

  /** `s.indexOf(t)`: the first occurrence, or None for -1. */
  function IndexOf(s: string, t: string): (r: Option<nat>)
    ensures r.Some? ==> OccursAt(s, t, r.value)
    ensures r.Some? ==> forall j: nat :: j < r.value ==> !OccursAt(s, t, j)
    ensures r.None? ==> forall j: nat :: !OccursAt(s, t, j)
    ensures r.Some? <==> Contains(s, t)
  {
    if |t| > |s| then None
    else if s[..|t|] == t then Some(0)
    else
      var rest := IndexOf(s[1..], t);
      assert forall j: nat :: OccursAt(s, t, j + 1) <==> OccursAt(s[1..], t, j) by {
        forall j: nat ensures OccursAt(s, t, j + 1) <==> OccursAt(s[1..], t, j) {
          if j + 1 + |t| <= |s| { DropSlice(s, j, |t|); }
        }
      }
      match rest
      case None =>
        assert forall j: nat :: !OccursAt(s, t, j) by {
          forall j: nat ensures !OccursAt(s, t, j) {
            if j > 0 { assert !OccursAt(s[1..], t, j - 1); }
          }
        }
        None
      case Some(k) =>
        assert forall j: nat :: j < k + 1 ==> !OccursAt(s, t, j) by {
          forall j: nat | j < k + 1 ensures !OccursAt(s, t, j) {
            if j > 0 { assert !OccursAt(s[1..], t, j - 1); }
          }
        }
        Some(k + 1)
  }

  lemma DropSlice(s: string, j: nat, n: nat)
    requires 1 + j + n <= |s|
    ensures s[1..][j..j + n] == s[j + 1..j + 1 + n]
  {
    var a, b := s[1..][j..j + n], s[j + 1..j + 1 + n];
    forall m | 0 <= m < n
      ensures a[m] == b[m]
    {
    }
  }

  /** The index of the first `c` in `s`, or `|s|` when there is none. */
  function FindChar(s: string, c: char): (i: nat)
    ensures i <= |s|
    ensures i < |s| ==> s[i] == c
    ensures c !in s[..i]
  {
    if s == [] then 0
    else if s[0] == c then 0
    else 1 + FindChar(s[1..], c)
  }

  /** `s.split(sep)` for a one-character separator. */
  function Split(s: string, sep: char): (r: seq<string>)
    ensures |r| >= 1
    ensures forall k :: 0 <= k < |r| ==> sep !in r[k]
    ensures r[0] == s[..FindChar(s, sep)]
    decreases |s|
  {
    var i := FindChar(s, sep);
    if i == |s| then [s] else [s[..i]] + Split(s[i + 1..], sep)
  }

  lemma {:induction false} FindCharAbsent(s: string, c: char)
    requires c !in s
    ensures FindChar(s, c) == |s|
  {
    if s != [] {
      assert s[0] in s;
      FindCharAbsent(s[1..], c);
    }
  }

  /** A string without the separator splits into itself alone. */
  lemma SplitNoSep(s: string, sep: char)
    requires sep !in s
    ensures Split(s, sep) == [s]
  {
    FindCharAbsent(s, sep);
  }

  /** `parts.join(sep)`. */
  function Join(parts: seq<string>, sep: char): string {
    if parts == [] then []
    else if |parts| == 1 then parts[0]
    else parts[0] + [sep] + Join(parts[1..], sep)
  }

  /** Splitting loses nothing: joining the pieces with the separator gives back the string. */
  lemma {:induction false} SplitJoin(s: string, sep: char)
    ensures Join(Split(s, sep), sep) == s
    decreases |s|
  {
    var i := FindChar(s, sep);
    if i < |s| {
      SplitJoin(s[i + 1..], sep);
      assert s == s[..i] + [sep] + s[i + 1..];
    }
  }

  predicate IsDigit(c: char) {
    '0' <= c <= '9'
  }

  function DigitValue(c: char): nat
    requires IsDigit(c)
  {
    c as int - '0' as int
  }

  function DigitChar(d: nat): (c: char)
    requires d < 10
    ensures IsDigit(c) && DigitValue(c) == d
  {
    ('0' as int + d) as char
  }

  predicate AllDigits(s: string) {
    forall i :: 0 <= i < |s| ==> IsDigit(s[i])
  }

  /** The value of a string of decimal digits. */
  function DigitsValue(s: string): nat
    requires AllDigits(s)
  {
    if s == [] then 0 else DigitsValue(s[..|s| - 1]) * 10 + DigitValue(s[|s| - 1])
  }

  /** `String(n)` for a natural number: its shortest decimal form. */
  function NatToString(n: nat): (r: string)
    ensures |r| >= 1 && AllDigits(r)
    ensures |r| > 1 ==> r[0] != '0'
  {
    if n < 10 then [DigitChar(n)] else NatToString(n / 10) + [DigitChar(n % 10)]
  }

  /** `String(n)` for an integer. */
  function IntToString(n: int): string {
    if n < 0 then "-" + NatToString(-n) else NatToString(n)
  }

  /** Rendering a natural number in decimal and reading it back gives the number. */
  lemma {:induction false} NatToStringValue(n: nat)
    ensures DigitsValue(NatToString(n)) == n
  {
    if n >= 10 {
      NatToStringValue(n / 10);
      var s := NatToString(n);
      assert s[..|s| - 1] == NatToString(n / 10);
    }
  }

  /** The length of the run of digits `s` starts with. */
  function DigitRun(s: string): (k: nat)
    ensures k <= |s|
    ensures k < |s| ==> !IsDigit(s[k])
  {
    if s != [] && IsDigit(s[0]) then 1 + DigitRun(s[1..]) else 0
  }

  /** The run is made of digits. */
  lemma {:induction false} DigitRunDigits(s: string)
    ensures AllDigits(s[..DigitRun(s)])
  {
    if s != [] && IsDigit(s[0]) {
      var k := DigitRun(s);
      DigitRunDigits(s[1..]);
      assert forall i :: 1 <= i < k ==> s[..k][i] == s[1..][..k - 1][i - 1];
    }
  }

  /** `Number.parseInt(s, 10)`: skips leading white space, then reads what follows as
      `ReadSigned` does. */
  function ParseInt(s: string): (r: Option<int>)
    ensures s == [] ==> r.None?
    ensures s != [] && IsDigit(s[0]) ==> r.Some? && r.value >= 0
  {
    assert s != [] && IsDigit(s[0]) ==> TrimStart(s) == s;
    ReadSigned(TrimStart(s))
  }

  /** The number at the start of text with no leading white space: an optional sign and the
      longest run of decimal digits; None stands for NaN (no digit at all). A digit first
      gives a number that is not negative, a '-' first is the only way to a negative one,
      and any other first character but '+' gives NaN, as does empty text. */
  function ReadSigned(t: string): (r: Option<int>)
    ensures t == [] ==> r.None?
    ensures t != [] && IsDigit(t[0]) ==> r.Some? && r.value >= 0
    ensures t != [] && !IsDigit(t[0]) && t[0] != '-' && t[0] != '+' ==> r.None?
    ensures r.Some? && r.value < 0 ==> t[0] == '-'
  {
    var negative := t != [] && t[0] == '-';
    var body := if t != [] && (t[0] == '-' || t[0] == '+') then t[1..] else t;
    var k := DigitRun(body);
    if k == 0 then None
    else
      DigitRunDigits(body);
      var v: int := DigitsValue(body[..k]);
      Some(if negative then -v else v)
  }

  /** White space before the number is skipped. */
  lemma ParseIntSkipsSpace(c: char, s: string)
    requires IsJsSpace(c)
    ensures ParseInt([c] + s) == ParseInt(s)
  {
    assert ([c] + s)[1..] == s;
  }

  /** parseInt reads back what NatToString writes. */
  lemma ParseIntNatToString(n: nat)
    ensures ParseInt(NatToString(n)) == Some(n)
  {
    var s := NatToString(n);
    ParseIntAllDigits(s);
    NatToStringValue(n);
  }

  /** Text of digits alone is read as its value. */
  lemma ParseIntAllDigits(s: string)
    requires s != [] && AllDigits(s)
    ensures ParseInt(s) == Some(DigitsValue(s) as int)
  {
    ParseIntOfDigits(s);
    DigitRunAll(s);
    assert s[..DigitRun(s)] == s;
  }

  lemma {:induction false} DigitRunAll(s: string)
    requires AllDigits(s)
    ensures DigitRun(s) == |s|
  {
    if s != [] { DigitRunAll(s[1..]); }
  }

  /** A string that starts with a digit is read as its leading run of digits. */
  lemma ParseIntOfDigits(s: string)
    requires s != [] && IsDigit(s[0])
    ensures AllDigits(s[..DigitRun(s)]) && ParseInt(s) == Some(DigitsValue(s[..DigitRun(s)]) as int)
  {
    assert !IsJsSpace(s[0]) && s[0] != '-' && s[0] != '+';
    assert TrimStart(s) == s;
    assert DigitRun(s) >= 1;
    DigitRunDigits(s);
  }
}
