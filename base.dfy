/** Small shared vocabulary: an Option type and the string operations the
    backend (Python) and the client (JavaScript) apply to user input. */
module Base {

  datatype Option<+T> = None | Some(value: T) {
    function GetOr(default: T): T {
      match this
      case Some(v) => v
      case None => default
    }
  }

  /** Characters Python's `str.isspace()` accepts, i.e. what `str.strip()` removes. */
  predicate IsPyWhitespace(c: char) {
    c == ' ' || ('\t' <= c <= '\r') || ('\U{1C}' <= c <= '\U{1F}') || c == '\U{85}'
    || c == '\U{A0}' || c == '\U{1680}' || ('\U{2000}' <= c <= '\U{200A}')
    || c == '\U{2028}' || c == '\U{2029}' || c == '\U{202F}' || c == '\U{205F}' || c == '\U{3000}'
  }

  /** Characters JavaScript's `String.prototype.trim` and the regex class `\s` accept. */
  predicate IsJsWhitespace(c: char) {
    c == ' ' || ('\t' <= c <= '\r') || c == '\U{A0}' || c == '\U{1680}'
    || ('\U{2000}' <= c <= '\U{200A}') || c == '\U{2028}' || c == '\U{2029}'
    || c == '\U{202F}' || c == '\U{205F}' || c == '\U{3000}' || c == '\U{FEFF}'
  }

  function TrimLeft(s: string, isWs: char -> bool): (r: string)
    ensures |r| <= |s| && r == s[|s| - |r|..]
    ensures r == [] || !isWs(r[0])
  {
    if |s| > 0 && isWs(s[0]) then TrimLeft(s[1..], isWs) else s
  }

  function TrimRight(s: string, isWs: char -> bool): (r: string)
    ensures |r| <= |s| && r == s[..|r|]
    ensures r == [] || !isWs(r[|r| - 1])
  {
    if |s| > 0 && isWs(s[|s| - 1]) then TrimRight(s[..|s| - 1], isWs) else s
  }

  /** Removes leading and trailing whitespace, as `strip()` / `trim()` do. */
  function Trim(s: string, isWs: char -> bool): string {
    TrimRight(TrimLeft(s, isWs), isWs)
  }

  /** A string is trimmed when it neither starts nor ends with whitespace. */
  predicate IsTrimmed(s: string, isWs: char -> bool) {
    s == [] || (!isWs(s[0]) && !isWs(s[|s| - 1]))
  }

  lemma TrimIsTrimmed(s: string, isWs: char -> bool)
    ensures IsTrimmed(Trim(s, isWs), isWs)
  {
    var l := TrimLeft(s, isWs);
    var r := TrimRight(l, isWs);
    if r != [] {
      assert r[0] == l[0];
    }
  }

  lemma TrimOfTrimmed(s: string, isWs: char -> bool)
    requires IsTrimmed(s, isWs)
    ensures Trim(s, isWs) == s
  {
  }

  lemma TrimIdempotent(s: string, isWs: char -> bool)
    ensures Trim(Trim(s, isWs), isWs) == Trim(s, isWs)
  {
    TrimIsTrimmed(s, isWs);
    TrimOfTrimmed(Trim(s, isWs), isWs);
  }

  function PyStrip(s: string): string { Trim(s, IsPyWhitespace) }
  function JsTrim(s: string): string { Trim(s, IsJsWhitespace) }

  /** ASCII case mapping (see README: non-ASCII case mapping is not modelled). */
  function LowerChar(c: char): char {
    if 'A' <= c <= 'Z' then (c as int + 32) as char else c
  }

  function UpperChar(c: char): char {
    if 'a' <= c <= 'z' then (c as int - 32) as char else c
  }

  function Lower(s: string): (r: string)
    ensures |r| == |s| && forall i :: 0 <= i < |s| ==> r[i] == LowerChar(s[i])
  {
    seq(|s|, i requires 0 <= i < |s| => LowerChar(s[i]))
  }

  function Upper(s: string): (r: string)
    ensures |r| == |s| && forall i :: 0 <= i < |s| ==> r[i] == UpperChar(s[i])
  {
    seq(|s|, i requires 0 <= i < |s| => UpperChar(s[i]))
  }

  predicate IsDigit(c: char) { '0' <= c <= '9' }

  function DigitChar(d: nat): (c: char)
    requires d < 10
    ensures IsDigit(c) && c as int - '0' as int == d
  {
    ('0' as int + d) as char
  }

  /** Decimal rendering of a natural number, as Python's `str(n)` and JavaScript's `${n}` print it. */
  function NatToString(n: nat): (r: string)
    decreases n
  {
    if n < 10 then [DigitChar(n)] else NatToString(n / 10) + [DigitChar(n % 10)]
  }

  function IntToString(i: int): string {
    if i < 0 then "-" + NatToString(-i) else NatToString(i)
  }

  /** The value of a non-empty run of decimal digits. */
  function DigitsValue(s: string): nat
    requires forall i :: 0 <= i < |s| ==> IsDigit(s[i])
  {
    if s == [] then 0
    else
      assert IsDigit(s[|s| - 1]);
      DigitsValue(s[..|s| - 1]) * 10 + (s[|s| - 1] as int - '0' as int)
  }

  lemma {:induction false} NatToStringDigits(n: nat)
    ensures |NatToString(n)| > 0
    ensures forall i :: 0 <= i < |NatToString(n)| ==> IsDigit(NatToString(n)[i])
    ensures DigitsValue(NatToString(n)) == n
  {
    if n >= 10 {
      NatToStringDigits(n / 10);
      var s := NatToString(n);
      assert s[..|s| - 1] == NatToString(n / 10);
    }
  }

  predicate StartsWith(s: string, prefix: string) {
    |prefix| <= |s| && s[..|prefix|] == prefix
  }

  predicate OccursAt(s: string, sub: string, i: nat) {
    i + |sub| <= |s| && s[i..i + |sub|] == sub
  }

  /** `sub` occurs in `s` as a contiguous run (Python's `sub in s`). */
  predicate Contains(s: string, sub: string) {
    exists i: nat :: i <= |s| && OccursAt(s, sub, i)
  }

  predicate AllDigits(s: string) {
    forall i :: 0 <= i < |s| ==> IsDigit(s[i])
  }

  /** `int` on text that is already stripped: an optional sign and at least
      one ASCII digit. */
  function SignedDigits(t: string): (r: Option<int>)
    ensures r.Some? ==> |t| > 0
  {
    var sign := if |t| > 0 && (t[0] == '-' || t[0] == '+') then 1 else 0;
    var digits := t[sign..];
    if |digits| == 0 || !AllDigits(digits) then None
    else if sign == 1 && t[0] == '-' then Some(-(DigitsValue(digits) as int))
    else Some(DigitsValue(digits))
  }

  /** Python's `int(s)` on text: surrounding whitespace, an optional sign and
      at least one ASCII digit; None where `int` raises ValueError. */
  function PyInt(s: string): (r: Option<int>)
    ensures r.Some? ==> |PyStrip(s)| > 0
  {
    SignedDigits(PyStrip(s))
  }

  lemma PyIntOfDigits(d: string)
    requires |d| > 0 && AllDigits(d)
    ensures PyInt(d) == Some(DigitsValue(d) as int)
  {
    SignedDigitsOfDigits(d);
    assert PyStrip(d) == d by {
      assert IsDigit(d[0]) && IsDigit(d[|d| - 1]);
      TrimOfTrimmed(d, IsPyWhitespace);
    }
  }

  lemma SignedDigitsOfDigits(d: string)
    requires |d| > 0 && AllDigits(d)
    ensures SignedDigits(d) == Some(DigitsValue(d) as int)
  {
    assert IsDigit(d[0]) && d[0..] == d;
  }

  lemma SignedDigitsOfNegated(s: string, d: string)
    requires |s| > 0 && s[0] == '-' && s[1..] == d && |d| > 0 && AllDigits(d)
    ensures SignedDigits(s) == Some(-(DigitsValue(d) as int))
  {
  }

  lemma PyIntOfNegatedDigits(d: string)
    requires |d| > 0 && AllDigits(d)
    ensures PyInt("-" + d) == Some(-(DigitsValue(d) as int))
  {
    var s := "-" + d;
    assert s[0] == '-' && s[1..] == d;
    SignedDigitsOfNegated(s, d);
    assert PyStrip(s) == s by {
      assert s[0] == '-' && s[|s| - 1] == d[|d| - 1] && IsDigit(d[|d| - 1]);
      TrimOfTrimmed(s, IsPyWhitespace);
    }
  }

  /** Python's `int(str(i))` gives `i` back. */
  lemma PyIntOfIntToString(i: int)
    ensures PyInt(IntToString(i)) == Some(i)
  {
    var n: nat := if i < 0 then -i else i;
    NatToStringDigits(n);
    if i < 0 {
      PyIntOfNegatedDigits(NatToString(n));
    } else {
      PyIntOfDigits(NatToString(n));
    }
  }

  /** Every occurrence of `c` in `s` replaced by `replacement`. */
  function ReplaceChar(s: string, c: char, replacement: string): (r: string)
    ensures c !in replacement ==> c !in r
  {
    if s == [] then []
    else (if s[0] == c then replacement else [s[0]]) + ReplaceChar(s[1..], c, replacement)
  }

  /** Text without `c` is left as it is. */
  lemma {:induction false} ReplaceCharAbsent(s: string, c: char, replacement: string)
    requires c !in s
    ensures ReplaceChar(s, c, replacement) == s
  {
    if s != [] {
      assert c !in s[1..];
      ReplaceCharAbsent(s[1..], c, replacement);
    }
  }

  /** Replacing distributes over concatenation. */
  lemma {:induction false} ReplaceCharAppend(s: string, t: string, c: char, replacement: string)
    ensures ReplaceChar(s + t, c, replacement) == ReplaceChar(s, c, replacement) + ReplaceChar(t, c, replacement)
  {
    if s != [] {
      assert (s + t)[0] == s[0] && (s + t)[1..] == s[1..] + t;
      ReplaceCharAppend(s[1..], t, c, replacement);
    } else {
      assert s + t == t;
    }
  }

  /** Instants are naive UTC datetimes, counted in microseconds since the epoch. */
  const MicrosPerSecond: int := 1000000

  /** `ts.replace(microsecond=0)`: the microsecond field is always in [0, 10^6),
      so this is the floor to a whole second (Dafny's `%` is Euclidean). */
  function TruncateToSecond(ts: int): (r: int)
    ensures r <= ts < r + MicrosPerSecond && r % MicrosPerSecond == 0
  {
    ts - ts % MicrosPerSecond
  }

  lemma TruncateIdempotent(ts: int)
    ensures TruncateToSecond(TruncateToSecond(ts)) == TruncateToSecond(ts)
    ensures TruncateToSecond(ts) / MicrosPerSecond == ts / MicrosPerSecond
  {
  }
}
