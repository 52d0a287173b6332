/** Character classes and string helpers with the meaning JavaScript gives them:
    the `\d` and `\s` regular-expression classes, `.` (anything but a line terminator),
    `String.prototype.trim`, `startsWith`, `replace` with a plain pattern, `split`
    on one character, `parseInt(s, 10)` and the decimal rendering of an integer.
    Strings are sequences of UTF-16 code units in JavaScript; every character
    named here lies in the Basic Multilingual Plane, so `char` stands for a code unit. */
module Text {

  datatype Option<+T> = None | Some(value: T)

  predicate IsDigit(c: char) {
    '0' <= c <= '9'
  }

  /** JavaScript WhiteSpace and LineTerminator: what `\s` matches and `trim` removes. */
  predicate IsSpace(c: char) {
    var n := c as int;
    n == 0x09 || n == 0x0A || n == 0x0B || n == 0x0C || n == 0x0D || n == 0x20 || n == 0xA0
    || n == 0x1680 || (0x2000 <= n <= 0x200A) || n == 0x2028 || n == 0x2029 || n == 0x202F
    || n == 0x205F || n == 0x3000 || n == 0xFEFF
  }

  /** The characters a regular-expression `.` does not match. */
  predicate IsLineTerminator(c: char) {
    var n := c as int;
    n == 0x0A || n == 0x0D || n == 0x2028 || n == 0x2029
  }

  predicate AllDigits(s: string) {
    forall i | 0 <= i < |s| :: IsDigit(s[i])
  }

  predicate AllSpace(s: string) {
    forall i | 0 <= i < |s| :: IsSpace(s[i])
  }

  predicate NoLineTerminator(s: string) {
    forall i | 0 <= i < |s| :: !IsLineTerminator(s[i])
  }

  lemma NoLineTerminatorSuffix(s: string, i: nat)
    requires NoLineTerminator(s) && i <= |s|
    ensures NoLineTerminator(s[i..])
  {
  }

  /** Length of the longest prefix of `s` made of decimal digits. */
  function DigitRun(s: string): (n: nat)
    ensures n <= |s|
    ensures AllDigits(s[..n])
    ensures n < |s| ==> !IsDigit(s[n])
  {
    if |s| == 0 || !IsDigit(s[0]) then 0 else 1 + DigitRun(s[1..])
  }

  /** Length of the longest prefix of `s` made of white space. */
  function SpaceRun(s: string): (n: nat)
    ensures n <= |s|
    ensures AllSpace(s[..n])
    ensures n < |s| ==> !IsSpace(s[n])
  {
    if |s| == 0 || !IsSpace(s[0]) then 0 else 1 + SpaceRun(s[1..])
  }

  /** A digit run ended by a non-digit is the longest one. */
  lemma DigitRunIs(s: string, d: nat)
    requires d < |s| && AllDigits(s[..d]) && !IsDigit(s[d])
    ensures DigitRun(s) == d
  {
  }

  /** A white-space prefix is no longer than the longest one. */
  lemma {:induction false} SpaceRunCovers(s: string, w: nat)
    requires w <= |s| && AllSpace(s[..w])
    ensures SpaceRun(s) >= w
  {
    if w > 0 {
      assert IsSpace(s[..w][0]);
      assert s[1..][..w - 1] == s[..w][1..];
      SpaceRunCovers(s[1..], w - 1);
    }
  }

  /** Length of the longest suffix of `s` made of white space. */
  function TrailingSpaceRun(s: string): (n: nat)
    ensures n <= |s|
    ensures AllSpace(s[|s| - n..])
    ensures n < |s| ==> !IsSpace(s[|s| - n - 1])
  {
    if |s| == 0 || !IsSpace(s[|s| - 1]) then 0
    else
      var k := TrailingSpaceRun(s[..|s| - 1]);
      assert forall i | 0 <= i < |s| - 1 :: s[..|s| - 1][i] == s[i];
      1 + k
  }

  /** Bounds `(a, b)` such that `s[a..b]` is `s.trim()`. */
  function TrimBounds(s: string): (r: (nat, nat))
    ensures r.0 <= r.1 <= |s|
    ensures AllSpace(s[..r.0]) && AllSpace(s[r.1..])
    ensures r.0 < r.1 ==> !IsSpace(s[r.0]) && !IsSpace(s[r.1 - 1])
  {
    var b := |s| - TrailingSpaceRun(s);
    var a := SpaceRun(s[..b]);
    assert s[..b][..a] == s[..a];
    (a, b)
  }

  /** `s.trim()` */
  function Trim(s: string): string {
    s[TrimBounds(s).0..TrimBounds(s).1]
  }

  /** Trimming removes exactly the white space around a text that starts and ends
      with something else. */
  lemma TrimPadded(lead: string, s: string, trail: string)
    requires AllSpace(lead) && AllSpace(trail)
    requires s != [] && !IsSpace(s[0]) && !IsSpace(s[|s| - 1])
    ensures Trim(lead + s + trail) == s
  {
    var t := lead + s + trail;
    var (a, b) := TrimBounds(t);
    assert t[|lead|] == s[0];
    assert t[|lead| + |s| - 1] == s[|s| - 1];
    assert a <= |lead|;
    assert b >= |lead| + |s|;
    assert a == |lead|;
    assert b == |lead| + |s|;
    assert t[a..b] == s;
  }

  /** A trimmed text has nothing left to trim. */
  lemma TrimIdempotent(s: string)
    ensures Trim(Trim(s)) == Trim(s)
  {
    var (a, b) := TrimBounds(s);
    if a < b {
      TrimPadded([], s[a..b], []);
      assert [] + s[a..b] + [] == s[a..b];
    } else {
      assert TrimBounds([]) == (0, 0);
    }
  }

  /** A text trims to nothing exactly when it is all white space. */
  lemma TrimEmptyIffSpace(s: string)
    ensures Trim(s) == [] <==> AllSpace(s)
  {
    var (a, b) := TrimBounds(s);
    if a == b {
      forall i | 0 <= i < |s| ensures IsSpace(s[i]) {
        if i < a {
          assert s[..a][i] == s[i];
        } else {
          assert s[b..][i - b] == s[i];
        }
      }
    }
  }

  /** ASCII lower-casing. `toLowerCase` also maps a few other characters onto ASCII
      letters (the Kelvin sign onto `k`, the dotted capital I onto `i` and a combining
      dot), but none onto `f`, `l`, `a` or `c`, so the `.flac` test is decided by this. */
  function LowerAscii(c: char): char {
    if 'A' <= c <= 'Z' then (c as int + 32) as char else c
  }

  function DigitValue(c: char): nat
    requires IsDigit(c)
  {
    c as int - '0' as int
  }

  function DigitChar(d: nat): (c: char)
    requires d < 10
    ensures IsDigit(c) && DigitValue(c) == d
  {
    ('0' as int + d) as char
  }

  /** The number a run of decimal digits denotes. */
  function DecimalValue(s: string): nat
    requires AllDigits(s)
  {
    if |s| == 0 then 0 else DecimalValue(s[..|s| - 1]) * 10 + DigitValue(s[|s| - 1])
  }

  /** The decimal rendering of a natural number, as JavaScript's `String(n)` gives it
      for integers below 2^53. */
  function NatToString(n: nat): (s: string)
    ensures |s| > 0 && AllDigits(s)
    ensures DecimalValue(s) == n
  {
    if n < 10 then [DigitChar(n)]
    else
      var prefix := NatToString(n / 10);
      var s := prefix + [DigitChar(n % 10)];
      assert s[..|s| - 1] == prefix;
      s
  }

  /** `parseInt(s, 10)`: skip leading white space, read an optional sign and the
      longest run of digits after it; no digit at all gives NaN (here `None`). */
  function ParseIntJs(s: string): (r: Option<int>)
    ensures r.Some? && '-' !in s ==> r.value >= 0
  {
    var t := s[SpaceRun(s)..];
    var negative := |t| > 0 && t[0] == '-';
    var u := if |t| > 0 && (t[0] == '-' || t[0] == '+') then t[1..] else t;
    var d := DigitRun(u);
    if d == 0 then None
    else
      assert negative ==> t[0] in s;
      var magnitude: int := DecimalValue(u[..d]);
      Some(if negative then -magnitude else magnitude)
  }

  /** Reading back the decimal rendering of `n` gives `n`, whatever follows it,
      provided the next character is not a digit. */
  lemma ParseIntOfNatToString(n: nat, rest: string)
    requires rest == [] || !IsDigit(rest[0])
    ensures ParseIntJs(NatToString(n) + rest) == Some(n)
  {
    var s := NatToString(n) + rest;
    assert SpaceRun(s) == 0 by { assert IsDigit(s[0]); }
    assert s[0..] == s;
    var d := DigitRun(s);
    var m := |NatToString(n)|;
    assert forall i | 0 <= i < m :: s[i] == NatToString(n)[i];
    assert m < |s| ==> s[m] == rest[0];
    assert d <= m ==> d == m;
    assert s[..d] == NatToString(n);
  }

  /** `s.startsWith(prefix)` */
  predicate StartsWith(s: string, prefix: string) {
    |prefix| <= |s| && s[..|prefix|] == prefix
  }

  predicate OccursAt(s: string, pat: string, j: int) {
    0 <= j && j + |pat| <= |s| && s[j..j + |pat|] == pat
  }

  /** The position of the first occurrence of `pat` in `s` at or after `from`. */
  function IndexOf(s: string, pat: string, from: nat := 0): (r: Option<nat>)
    requires from <= |s|
    ensures r.Some? ==> from <= r.value && OccursAt(s, pat, r.value)
    ensures forall j | from <= j && (r.None? || j < r.value) :: !OccursAt(s, pat, j)
    decreases |s| - from
  {
    if from + |pat| > |s| then None
    else if s[from..from + |pat|] == pat then Some(from)
    else IndexOf(s, pat, from + 1)
  }

  /** `s.replace(pat, rep)` for a pattern with no special characters: only the first
      occurrence is replaced. */
  function ReplaceFirst(s: string, pat: string, rep: string): string {
    match IndexOf(s, pat)
    case None => s
    case Some(i) => s[..i] + rep + s[i + |pat|..]
  }

  /** The position of the first `c` in `s`. */
  function IndexOfChar(s: string, c: char, from: nat := 0): (r: Option<nat>)
    requires from <= |s|
    ensures r.Some? ==> from <= r.value < |s| && s[r.value] == c
    ensures forall j | from <= j < |s| && (r.None? || j < r.value) :: s[j] != c
    decreases |s| - from
  {
    if from == |s| then None
    else if s[from] == c then Some(from)
    else IndexOfChar(s, c, from + 1)
  }

  /** The first two fields of `s.split(sep)`: the text before the first `sep`, and,
      when `s` contains `sep`, the text between the first and the second `sep`. */
  function SplitTwo(s: string, sep: char): (r: (string, Option<string>))
    ensures sep !in r.0
    ensures r.1.None? <==> sep !in s
    ensures r.1.None? ==> r.0 == s
    ensures r.1.Some? ==> |r.0| + 1 + |r.1.value| <= |s| && s[..|r.0|] == r.0 && s[|r.0|] == sep
    ensures r.1.Some? ==> s[|r.0| + 1..|r.0| + 1 + |r.1.value|] == r.1.value && sep !in r.1.value
    ensures r.1.Some? && |r.0| + 1 + |r.1.value| < |s| ==> s[|r.0| + 1 + |r.1.value|] == sep
  {
    match IndexOfChar(s, sep)
    case None => (s, None)
    case Some(i) =>
      var tail := s[i + 1..];
      var field := match IndexOfChar(tail, sep) case None => tail case Some(k) => tail[..k];
      (s[..i], Some(field))
  }

  /** Splitting `<digits>-<rest>` at the first `-` gives the digits and the text up to
      the next `-`. */
  lemma SplitAfterDigits(digits: string, rest: string)
    requires AllDigits(digits) && '-' !in rest
    ensures SplitTwo(digits + "-" + rest, '-') == (digits, Some(rest))
  {
    var s := digits + "-" + rest;
    var r := SplitTwo(s, '-');
    assert s[|digits|] == '-';
    assert r.1.Some?;
    var m := |r.0|;
    if m < |digits| {
      assert false;
    }
    if m > |digits| {
      assert false;
    }
    assert r.0 == digits;
    var n := |r.1.value|;
    if m + 1 + n < |s| {
      assert false;
    }
    assert s[m + 1..] == rest;
  }

  lemma DigitsHaveNoDash(n: nat)
    ensures '-' !in NatToString(n)
  {
    var s := NatToString(n);
    forall i | 0 <= i < |s| ensures s[i] != '-' {
      assert IsDigit(s[i]);
    }
  }

  /** `parseInt` reads back the decimal rendering of a natural number. */
  lemma ParseNat(n: nat)
    ensures ParseIntJs(NatToString(n)) == Some(n)
  {
    ParseIntOfNatToString(n, []);
    assert NatToString(n) + [] == NatToString(n);
  }
}
