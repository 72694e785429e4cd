/**
 * The pieces of JavaScript's string and number semantics that the services
 * rely on: the whitespace set of `String.prototype.trim` and of the regular
 * expression class `\s`, `trim`, `split`, `includes`, `parseInt(s, 10)` and
 * the decimal rendering of an integer in a template literal.
 */
module JsText {

  /** `T | null | undefined` in the source. */
  datatype Option<T> = None | Some(value: T)

  /** A JavaScript number as `parseInt` produces it: an integer or NaN. */
  datatype Num = Int(value: int) | NaN

  // ---------------------------------------------------------------------
  // Character classes
  // ---------------------------------------------------------------------

  /** LineTerminator: the characters that `.` in a regular expression refuses. */
  predicate IsLineTerminator(c: char) {
    c == '\n' || c == '\r' || c == '\U{2028}' || c == '\U{2029}'
  }

  /** WhiteSpace or LineTerminator: what `trim` removes and `\s` matches. */
  predicate IsSpace(c: char) {
    || IsLineTerminator(c)
    || c == '\t' || c == '\U{000B}' || c == '\U{000C}' || c == ' '
    || c == '\U{00A0}' || c == '\U{1680}' || ('\U{2000}' <= c <= '\U{200A}')
    || c == '\U{202F}' || c == '\U{205F}' || c == '\U{3000}' || c == '\U{FEFF}'
  }

  /** The class `\d`. */
  predicate IsDigit(c: char) {
    '0' <= c <= '9'
  }

  predicate AllDigits(s: string) {
    forall i :: 0 <= i < |s| ==> IsDigit(s[i])
  }

  /** Decimal digits contain neither `:` nor `-`, the separators of chapter and verse references. */
  lemma DigitsHaveNoSeparator(d: string)
    requires AllDigits(d)
    ensures ':' !in d && '-' !in d
    ensures forall m :: 0 <= m < |d| ==> d[m] !in {':', '-'}
  {
  }

  predicate NoLineTerminator(s: string) {
    forall i :: 0 <= i < |s| ==> !IsLineTerminator(s[i])
  }

  predicate AllSpaces(s: string) {
    forall i :: 0 <= i < |s| ==> IsSpace(s[i])
  }

  // ---------------------------------------------------------------------
  // trim
  // ---------------------------------------------------------------------

  /** The end of the run of whitespace that starts at `i`. */
  function SkipSpaces(s: string, i: nat): (k: nat)
    requires i <= |s|
    ensures i <= k <= |s|
    ensures k == |s| || !IsSpace(s[k])
    ensures forall m :: i <= m < k ==> IsSpace(s[m])
    decreases |s| - i
  {
    if i == |s| || !IsSpace(s[i]) then i else SkipSpaces(s, i + 1)
  }

  /** The start of the run of whitespace that ends the first `j` characters. */
  function SpacesBefore(s: string, j: nat): (k: nat)
    requires j <= |s|
    ensures k <= j
    ensures k == 0 || !IsSpace(s[k - 1])
    ensures forall m :: k <= m < j ==> IsSpace(s[m])
  {
    if j == 0 || !IsSpace(s[j - 1]) then j else SpacesBefore(s, j - 1)
  }

  /** `s.trim()`: the characters between the leading and the trailing whitespace. */
  function Trim(s: string): (r: string)
    ensures r == [] || (!IsSpace(r[0]) && !IsSpace(r[|r| - 1]))
    ensures r == [] <==> AllSpaces(s)
  {
    var a := SkipSpaces(s, 0);
    var b := SpacesBefore(s, |s|);
    if a < b then s[a..b] else []
  }

  /** Trimming is idempotent. */
  lemma TrimIdempotent(s: string)
    ensures Trim(Trim(s)) == Trim(s)
  {
    var t := Trim(s);
    if t != [] {
      assert SkipSpaces(t, 0) == 0;
      assert SpacesBefore(t, |t|) == |t|;
      assert t[0..|t|] == t;
    }
  }

  /** A string that neither starts nor ends with whitespace is its own trim. */
  lemma TrimOfTrimmed(s: string)
    requires s == [] || (!IsSpace(s[0]) && !IsSpace(s[|s| - 1]))
    ensures Trim(s) == s
  {
    if s != [] {
      assert SkipSpaces(s, 0) == 0;
      assert SpacesBefore(s, |s|) == |s|;
      assert s[0..|s|] == s;
    }
  }

  // ---------------------------------------------------------------------
  // split, join, includes, startsWith
  // ---------------------------------------------------------------------

  /**
   * `s.split(sep)` where every character of `seps` is a separator (a
   * one-character string or a character class such as `/[;；]/`): the
   * pieces between separators, empty ones included, always at least one.
   */
  function SplitBy(s: string, seps: set<char>): (r: seq<string>)
    ensures |r| >= 1
    ensures forall p, m :: p in r && 0 <= m < |p| ==> p[m] !in seps
    ensures (exists m :: 0 <= m < |s| && s[m] in seps) ==> |r| >= 2
  {
    if s == [] then [[]]
    else
      var rest := SplitBy(s[1..], seps);
      if s[0] in seps then [[]] + rest
      else [[s[0]] + rest[0]] + rest[1..]
  }

  /** A piece free of separators splits into itself. */
  lemma {:induction false} SplitWithoutSeparator(d: string, seps: set<char>)
    requires forall m :: 0 <= m < |d| ==> d[m] !in seps
    ensures SplitBy(d, seps) == [d]
  {
    if d != [] {
      SplitWithoutSeparator(d[1..], seps);
      assert [d[0]] + d[1..] == d;
    }
  }

  /** Splitting at the first separator peels off the piece before it. */
  lemma {:induction false} SplitAtFirst(d: string, c: char, rest: string, seps: set<char>)
    requires forall m :: 0 <= m < |d| ==> d[m] !in seps
    requires c in seps
    ensures SplitBy(d + [c] + rest, seps) == [d] + SplitBy(rest, seps)
  {
    var s := d + [c] + rest;
    if d == [] {
      assert s[1..] == rest;
    } else {
      assert s[1..] == d[1..] + [c] + rest;
      SplitAtFirst(d[1..], c, rest, seps);
      assert [d[0]] + d[1..] == d;
    }
  }

  /** `xs.join(sep)`. */
  function Join(xs: seq<string>, sep: string): string
  {
    if |xs| == 0 then []
    else if |xs| == 1 then xs[0]
    else xs[0] + sep + Join(xs[1..], sep)
  }

  /** Splitting `d1 + [c] + d2` at `c`, where neither half holds a separator, gives the halves. */
  lemma SplitInTwo(d1: string, c: char, d2: string, seps: set<char>)
    requires c in seps
    requires forall m :: 0 <= m < |d1| ==> d1[m] !in seps
    requires forall m :: 0 <= m < |d2| ==> d2[m] !in seps
    ensures SplitBy(d1 + [c] + d2, seps) == [d1, d2]
  {
    SplitAtFirst(d1, c, d2, seps);
    SplitWithoutSeparator(d2, seps);
  }

  /** Joining the pieces of a split on one character with that character gives the string back. */
  lemma {:induction false} SplitThenJoin(s: string, c: char)
    ensures Join(SplitBy(s, {c}), [c]) == s
  {
    if s != [] {
      var rest := SplitBy(s[1..], {c});
      SplitThenJoin(s[1..], c);
      if s[0] == c {
        assert SplitBy(s, {c}) == [[]] + rest;
        assert ([[]] + rest)[1..] == rest;
      } else {
        var r := [[s[0]] + rest[0]] + rest[1..];
        assert SplitBy(s, {c}) == r;
        if |rest| == 1 {
          assert rest[0] == s[1..];
        } else {
          assert r[1..] == rest[1..];
          assert Join(rest, [c]) == rest[0] + [c] + Join(rest[1..], [c]);
        }
      }
    }
  }

  /** `sub` occurs in `s` starting at index `i`. */
  predicate OccursAt(s: string, sub: string, i: int) {
    0 <= i && i + |sub| <= |s| && s[i..i + |sub|] == sub
  }

  /** `s.includes(sub)`: some window of `s` equals `sub`. */
  predicate Contains(s: string, sub: string)
  {
    exists i | 0 <= i <= |s| - |sub| :: OccursAt(s, sub, i)
  }

  /** A string lacking some character of `sub` does not contain `sub`. */
  lemma MissingCharExcludes(s: string, sub: string, j: nat)
    requires j < |sub|
    requires forall m :: 0 <= m < |s| ==> s[m] != sub[j]
    ensures !Contains(s, sub)
  {
    assert forall i :: OccursAt(s, sub, i) ==> s[i..i + |sub|][j] == sub[j];
  }

  function AsciiLower(c: char): char {
    if 'A' <= c <= 'Z' then (c as int + 32) as char else c
  }

  /** `/^prefix/i` for an ASCII `prefix`: case is ignored for ASCII letters only. */
  predicate StartsWithIgnoringCase(s: string, prefix: string) {
    |prefix| <= |s| && forall i :: 0 <= i < |prefix| ==> AsciiLower(s[i]) == AsciiLower(prefix[i])
  }

  // ---------------------------------------------------------------------
  // Integer arithmetic as JavaScript does it
  // ---------------------------------------------------------------------

  /** `Math.abs`. */
  function Abs(x: int): (r: nat)
    ensures r == x || r == -x
  {
    if x < 0 then -x else x
  }

  /** `a % b`: the remainder of truncating division, with the sign of `a`. */
  function JsRem(a: int, b: int): (r: int)
    requires b != 0
    ensures Abs(r) == Abs(a) % Abs(b)
    ensures a >= 0 ==> 0 <= r
    ensures a < 0 ==> r <= 0
  {
    var m := Abs(a) % Abs(b);
    if a < 0 then -m else m
  }

  // ---------------------------------------------------------------------
  // parseInt(s, 10) and the decimal rendering of an integer
  // ---------------------------------------------------------------------

  function DigitValue(c: char): (d: nat)
    requires IsDigit(c)
    ensures d < 10
  {
    c as int - '0' as int
  }

  function DigitChar(d: nat): (c: char)
    requires d < 10
    ensures IsDigit(c) && DigitValue(c) == d
  {
    ('0' as int + d) as char
  }

  /** The value of a string of decimal digits. */
  function DigitsValue(s: string): nat
    requires AllDigits(s)
  {
    if s == [] then 0 else DigitsValue(s[..|s| - 1]) * 10 + DigitValue(s[|s| - 1])
  }

  /** The length of the longest prefix of `s` made of decimal digits. */
  function DigitRun(s: string): (n: nat)
    ensures n <= |s|
    ensures AllDigits(s[..n])
    ensures n == |s| || !IsDigit(s[n])
  {
    if s == [] || !IsDigit(s[0]) then 0
    else
      var n := 1 + DigitRun(s[1..]);
      assert forall i :: 1 <= i < n ==> s[..n][i] == s[1..][..n - 1][i - 1];
      n
  }

  /**
   * `parseInt(s, 10)`: leading whitespace is skipped, one `+` or `-` is
   * accepted, then the longest run of digits is read and the rest ignored;
   * no digit at all gives NaN.
   */
  function ParseInt(s: string): (r: Num)
    ensures r.NaN? <==> DigitRun(UnsignedPart(s)) == 0
  {
    var t := s[SkipSpaces(s, 0)..];
    var u := UnsignedPart(s);
    var n := DigitRun(u);
    if n == 0 then NaN
    else
      var m: int := DigitsValue(u[..n]);
      Int(if |t| > 0 && t[0] == '-' then -m else m)
  }

  /** What `parseInt` reads digits from: `s` without leading whitespace and one sign. */
  function UnsignedPart(s: string): string
  {
    var t := s[SkipSpaces(s, 0)..];
    if |t| > 0 && (t[0] == '-' || t[0] == '+') then t[1..] else t
  }

  /** The decimal digits of `n`, without leading zeros. */
  function NatToString(n: nat): (r: string)
    ensures |r| > 0 && AllDigits(r)
    ensures DigitsValue(r) == n
    ensures r[0] == '0' ==> n == 0
  {
    if n < 10 then [DigitChar(n)]
    else
      var r := NatToString(n / 10) + [DigitChar(n % 10)];
      assert r[..|r| - 1] == NatToString(n / 10);
      r
  }

  /** `${i}` for an integer `i`. */
  function IntToString(i: int): (r: string)
    ensures |r| > 0
    ensures i >= 0 ==> AllDigits(r)
    ensures i < 0 ==> r[0] == '-' && AllDigits(r[1..])
  {
    if i < 0 then "-" + NatToString(-i) else NatToString(i)
  }

  lemma {:induction false} DigitRunOfDigits(d: string, rest: string)
    requires AllDigits(d)
    requires rest == [] || !IsDigit(rest[0])
    ensures DigitRun(d + rest) == |d|
    ensures (d + rest)[..|d|] == d
  {
    if d != [] {
      assert (d + rest)[1..] == d[1..] + rest;
      DigitRunOfDigits(d[1..], rest);
    } else {
      assert d + rest == rest;
    }
  }

  /**
   * `parseInt` reads back what the template literal wrote, whatever
   * non-digit text follows it.
   */
  lemma ParseIntOfIntToString(i: int, rest: string)
    requires rest == [] || !IsDigit(rest[0])
    ensures ParseInt(IntToString(i) + rest) == Int(i)
  {
    var sign: string := if i < 0 then "-" else [];
    var d := NatToString(if i < 0 then -i else i);
    assert IntToString(i) == sign + d;
    ParseIntOfSignedDigits(sign, d, rest);
  }

  /** `parseInt` of an optional minus sign, digits and then a non-digit: the signed value of the digits. */
  lemma ParseIntOfSignedDigits(sign: string, d: string, rest: string)
    requires sign == [] || sign == "-"
    requires d != [] && AllDigits(d)
    requires rest == [] || !IsDigit(rest[0])
    ensures ParseInt(sign + d + rest) == Int(if sign == [] then DigitsValue(d) else -(DigitsValue(d) as int))
  {
    var s := sign + d + rest;
    SignedDigitsParts(sign, d, rest);
    DigitRunOfDigits(d, rest);
    assert DigitRun(UnsignedPart(s)) == |d| && UnsignedPart(s)[..|d|] == d;
  }

  /** Where `parseInt` reads `sign + d + rest`: no whitespace to skip, and the digits follow the sign. */
  lemma SignedDigitsParts(sign: string, d: string, rest: string)
    requires sign == [] || sign == "-"
    requires d != [] && AllDigits(d)
    ensures var s := sign + d + rest;
      && SkipSpaces(s, 0) == 0 && s[SkipSpaces(s, 0)..] == s
      && UnsignedPart(s) == d + rest
      && (s[0] == '-' <==> sign == "-")
  {
    var s := sign + d + rest;
    assert s[0] == (sign + d)[0];
    assert SkipSpaces(s, 0) == 0;
    assert s[0..] == s;
    if sign == [] {
      assert s == d + rest;
    } else {
      assert s[1..] == d + rest;
    }
  }

  /** `parseInt` of a non-empty run of decimal digits is a number, never NaN. */
  lemma ParseIntOfDigits(digits: string)
    requires digits != [] && AllDigits(digits)
    ensures ParseInt(digits).Int? && ParseInt(digits).value == DigitsValue(digits)
  {
    DigitRunOfDigits(digits, []);
    assert digits + [] == digits;
    assert SkipSpaces(digits, 0) == 0;
    assert digits[0..] == digits;
    assert UnsignedPart(digits) == digits;
  }
}
