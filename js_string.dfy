/**
 * The few JavaScript string built-ins the application relies on, with the
 * semantics of the ECMAScript standard: `split` on one character, `join`,
 * `trim`, `startsWith`, `endsWith`, `indexOf`, `lastIndexOf`, ASCII
 * `toLowerCase`, `parseInt`, integer `toString` and the default string order
 * used by `Array.prototype.sort`.
 */
module JsString {
  import opened Wrappers

  /** The characters `String.prototype.trim` and `parseInt` skip
      (WhiteSpace and LineTerminator of the ECMAScript grammar). */
  predicate IsWhitespace(c: char) {
    c == ' ' || c == '\t' || c == '\n' || c == '\r' || c == '\U{000B}' || c == '\U{000C}'
    || c == '\U{00A0}' || c == '\U{FEFF}' || c == '\U{1680}'
    || ('\U{2000}' <= c <= '\U{200A}')
    || c == '\U{2028}' || c == '\U{2029}' || c == '\U{202F}' || c == '\U{205F}' || c == '\U{3000}'
  }

  predicate AllWhitespace(s: string) {
    forall i :: 0 <= i < |s| ==> IsWhitespace(s[i])
  }

  // ---------------------------------------------------------------- trim

  /** The number of leading whitespace characters. */
  function LeadingSpace(s: string): (n: nat)
    ensures n <= |s| && AllWhitespace(s[..n])
    ensures n < |s| ==> !IsWhitespace(s[n])
  {
    if |s| > 0 && IsWhitespace(s[0]) then
      var m := LeadingSpace(s[1..]);
      assert s[..m + 1] == [s[0]] + s[1..][..m];
      m + 1
    else
      0
  }

  /** Where the trailing whitespace starts. */
  function TrailingSpace(s: string): (n: nat)
    ensures n <= |s| && AllWhitespace(s[n..])
    ensures n > 0 ==> !IsWhitespace(s[n - 1])
  {
    if |s| > 0 && IsWhitespace(s[|s| - 1]) then
      var m := TrailingSpace(s[..|s| - 1]);
      assert s[m..] == s[..|s| - 1][m..] + [s[|s| - 1]];
      m
    else
      |s|
  }

  /** Drops leading whitespace. */
  function TrimStart(s: string): (r: string)
    ensures |r| <= |s| && r == s[|s| - |r|..]
    ensures AllWhitespace(s[..|s| - |r|])
    ensures r != [] ==> !IsWhitespace(r[0])
  {
    s[LeadingSpace(s)..]
  }

  /** Drops trailing whitespace. */
  function TrimEnd(s: string): (r: string)
    ensures |r| <= |s| && r == s[..|r|]
    ensures AllWhitespace(s[|r|..])
    ensures r != [] ==> !IsWhitespace(r[|r| - 1])
  {
    s[..TrailingSpace(s)]
  }

  /** `String.prototype.trim`: `s` is some whitespace, then `r`, then some
      whitespace, and `r` neither starts nor ends with whitespace. */
  function Trim(s: string): (r: string)
    ensures exists i :: 0 <= i <= |s| - |r| && s[i..i + |r|] == r && AllWhitespace(s[..i]) && AllWhitespace(s[i + |r|..])
    ensures r != [] ==> !IsWhitespace(r[0]) && !IsWhitespace(r[|r| - 1])
  {
    var i := LeadingSpace(s);
    var t := s[i..];
    var j := TrailingSpace(t);
    assert s[i..i + j] == t[..j];
    assert s[i + j..] == t[j..];
    t[..j]
  }

  /** A string is "truthy" after trimming exactly when it holds a
      non-whitespace character. */
  lemma TrimEmptyIff(s: string)
    ensures Trim(s) == [] <==> AllWhitespace(s)
  {
    var t := TrimStart(s);
    if Trim(s) == [] {
      assert AllWhitespace(t[0..]);
      assert t[0..] == t;
      assert |t| == 0;
      assert s[..|s| - |t|] == s;
    } else {
      assert t != [] && !IsWhitespace(t[0]);
      assert s[|s| - |t|] == t[0];
    }
  }

  /** Neither starts nor ends with whitespace. */
  predicate Trimmed(s: string) {
    s == [] || (!IsWhitespace(s[0]) && !IsWhitespace(s[|s| - 1]))
  }

  /** Trimming leaves a trimmed string as it is. */
  lemma TrimTrimmed(s: string)
    requires Trimmed(s)
    ensures Trim(s) == s
  {
    assert TrimStart(s) == s;
    assert TrimEnd(s) == s;
  }

  // ------------------------------------------------------------- search

  /** `indexOf` of one character: the first position of `c`, or -1. */
  function IndexOf(s: string, c: char): (i: int)
    ensures -1 <= i < |s|
    ensures i == -1 <==> c !in s
    ensures i >= 0 ==> s[i] == c && forall k :: 0 <= k < i ==> s[k] != c
  {
    if |s| == 0 then -1
    else if s[0] == c then 0
    else
      var j := IndexOf(s[1..], c);
      if j == -1 then -1 else j + 1
  }

  /** `lastIndexOf` of one character: the last position of `c`, or -1. */
  function LastIndexOf(s: string, c: char): (i: int)
    ensures -1 <= i < |s|
    ensures i == -1 <==> c !in s
    ensures i >= 0 ==> s[i] == c && forall k :: i < k < |s| ==> s[k] != c
  {
    if |s| == 0 then -1
    else if s[|s| - 1] == c then |s| - 1
    else
      var j := LastIndexOf(s[..|s| - 1], c);
      assert j == -1 ==> forall k :: 0 <= k < |s| ==> s[k] != c by {
        if j == -1 {
          forall k | 0 <= k < |s| ensures s[k] != c {
            if k < |s| - 1 { assert s[k] == s[..|s| - 1][k]; }
          }
        }
      }
      j
  }

  /** The text of `s` before the first `c`; all of `s` when it has none. */
  function Before(s: string, c: char): string {
    s[..if c in s then IndexOf(s, c) else |s|]
  }

  predicate StartsWith(s: string, prefix: string) {
    |prefix| <= |s| && s[..|prefix|] == prefix
  }

  predicate EndsWith(s: string, suffix: string) {
    |suffix| <= |s| && s[|s| - |suffix|..] == suffix
  }

  // ------------------------------------------------------- split / join

  /** `parts.join(sep)` for a one-character separator. */
  function Join(parts: seq<string>, sep: char): string {
    if |parts| == 0 then ""
    else if |parts| == 1 then parts[0]
    else parts[0] + [sep] + Join(parts[1..], sep)
  }

  /** `s.split(sep)` for a one-character separator: the pieces between
      consecutive occurrences of `sep`; `""` splits into `[""]`. */
  function Split(s: string, sep: char): (r: seq<string>)
    ensures |r| >= 1
    ensures forall k :: 0 <= k < |r| ==> sep !in r[k]
    ensures Join(r, sep) == s
    ensures r[0] == Before(s, sep)
    decreases |s|
  {
    var i := IndexOf(s, sep);
    if i == -1 then
      assert s[..|s|] == s;
      [s]
    else
      var first, rest := s[..i], Split(s[i + 1..], sep);
      var r := [first] + rest;
      assert Join(r, sep) == s by {
        assert s == first + [sep] + s[i + 1..];
        assert r[1..] == rest;
      }
      assert forall k :: 0 <= k < |r| ==> sep !in r[k] by {
        assert sep !in first;
      }
      r
  }

  /** Splitting undoes joining pieces that do not contain the separator. */
  lemma {:induction false} SplitJoin(parts: seq<string>, sep: char)
    requires |parts| >= 1
    requires forall k :: 0 <= k < |parts| ==> sep !in parts[k]
    ensures Split(Join(parts, sep), sep) == parts
  {
    if |parts| > 1 {
      var s := Join(parts, sep);
      var tail := Join(parts[1..], sep);
      assert s == parts[0] + [sep] + tail;
      assert s[|parts[0]|] == sep;
      assert s[..|parts[0]|] == parts[0];
      assert IndexOf(s, sep) == |parts[0]|;
      assert s[|parts[0]| + 1..] == tail;
      SplitJoin(parts[1..], sep);
    }
  }

  /** Joining one more piece appends the separator and the piece. */
  lemma {:induction false} JoinSnoc(parts: seq<string>, x: string, sep: char)
    requires |parts| >= 1
    ensures Join(parts + [x], sep) == Join(parts, sep) + [sep] + x
    decreases |parts|
  {
    if |parts| > 1 {
      assert (parts + [x])[1..] == parts[1..] + [x];
      JoinSnoc(parts[1..], x, sep);
    }
  }

  /** `s.split(sep).slice(1).join(sep)`: everything after the first `sep`. */
  lemma {:induction false} JoinTailAfterFirst(s: string, sep: char)
    requires sep in s
    ensures Join(Split(s, sep)[1..], sep) == s[IndexOf(s, sep) + 1..]
  {
    var i := IndexOf(s, sep);
    assert Split(s, sep)[1..] == Split(s[i + 1..], sep);
  }

  /** `split(sep)[1]` on a string with a separator: the text between the
      first and the second occurrence (or the end). */
  lemma SecondPiece(s: string, sep: char)
    requires sep in s
    ensures |Split(s, sep)| >= 2
    ensures var rest := s[IndexOf(s, sep) + 1..];
            Split(s, sep)[1] == Before(rest, sep)
  {
    var i := IndexOf(s, sep);
    assert Split(s, sep) == [s[..i]] + Split(s[i + 1..], sep);
  }

  // --------------------------------------------------------- lower case

  function LowerChar(c: char): char {
    if 'A' <= c <= 'Z' then (c as int + 32) as char else c
  }

  /** `toLowerCase`, on the ASCII letters. */
  function ToLower(s: string): (r: string)
    ensures |r| == |s|
    ensures forall i :: 0 <= i < |s| ==> r[i] == LowerChar(s[i])
  {
    seq(|s|, i requires 0 <= i < |s| => LowerChar(s[i]))
  }

  // ------------------------------------------------ string order (sort)

  /** The order `Array.prototype.sort` uses on strings without a comparator:
      a proper prefix comes first, otherwise the first differing character
      decides. */
  predicate LexLess(a: string, b: string) {
    if |a| == 0 then |b| > 0
    else if |b| == 0 then false
    else if a[0] != b[0] then a[0] < b[0]
    else LexLess(a[1..], b[1..])
  }

  lemma {:induction false} LexLessIrreflexive(a: string)
    ensures !LexLess(a, a)
  {
    if |a| > 0 { LexLessIrreflexive(a[1..]); }
  }

  lemma {:induction false} LexLessTransitive(a: string, b: string, c: string)
    requires LexLess(a, b) && LexLess(b, c)
    ensures LexLess(a, c)
  {
    if |a| > 0 && |b| > 0 && |c| > 0 && a[0] == b[0] && b[0] == c[0] {
      LexLessTransitive(a[1..], b[1..], c[1..]);
    }
  }

  lemma {:induction false} LexLessTotal(a: string, b: string)
    requires a != b
    ensures LexLess(a, b) || LexLess(b, a)
  {
    if |a| > 0 && |b| > 0 && a[0] == b[0] {
      assert a == [a[0]] + a[1..] && b == [b[0]] + b[1..];
      LexLessTotal(a[1..], b[1..]);
    }
  }

  /** The element `sort().reverse()[0]` picks from a non-empty list: the
      greatest in the string order. */
  function MaxLex(s: seq<string>): (r: string)
    requires |s| > 0
    ensures r in s
    ensures forall x :: x in s ==> x == r || LexLess(x, r)
  {
    if |s| == 1 then s[0]
    else
      var m := MaxLex(s[1..]);
      if LexLess(m, s[0]) then
        assert forall x :: x in s[1..] && x != m ==> LexLess(x, s[0]) by {
          forall x | x in s[1..] && x != m ensures LexLess(x, s[0]) { LexLessTransitive(x, m, s[0]); }
        }
        s[0]
      else
        assert s[0] == m || LexLess(s[0], m) by {
          if s[0] != m { LexLessTotal(s[0], m); }
        }
        m
  }

  // --------------------------------------------------------- numbers

  /** Value of a digit character in base `radix` (2..36), if it is one. */
  function DigitValue(c: char, radix: nat): (d: Option<nat>)
    ensures d.Some? ==> d.value < radix
  {
    var v := if '0' <= c <= '9' then c as int - '0' as int
             else if 'a' <= c <= 'z' then c as int - 'a' as int + 10
             else if 'A' <= c <= 'Z' then c as int - 'A' as int + 10
             else 36;
    if v < radix then Some(v) else None
  }

  predicate IsDigitIn(c: char, radix: nat) {
    DigitValue(c, radix).Some?
  }

  /** Length of the longest prefix of `s` made of digits. */
  function DigitPrefixLength(s: string, radix: nat): (n: nat)
    ensures n <= |s|
    ensures forall i :: 0 <= i < n ==> IsDigitIn(s[i], radix)
    ensures n < |s| ==> !IsDigitIn(s[n], radix)
  {
    if |s| > 0 && IsDigitIn(s[0], radix) then 1 + DigitPrefixLength(s[1..], radix) else 0
  }

  /** The number a digit string denotes, most significant digit first. */
  function DigitsValue(ds: string, radix: nat): nat
    requires forall i :: 0 <= i < |ds| ==> IsDigitIn(ds[i], radix)
  {
    if |ds| == 0 then 0
    else
      var init, last := ds[..|ds| - 1], ds[|ds| - 1];
      assert IsDigitIn(last, radix);
      assert forall i :: 0 <= i < |init| ==> init[i] == ds[i];
      var high := DigitsValue(init, radix);
      ProductNat(high, radix);
      high * radix + DigitValue(last, radix).value
  }

  /** The digits at the start of `body` read in base `radix`; `None` when
      there is none. */
  function ParseDigits(body: string, radix: nat): Option<nat> {
    var n := DigitPrefixLength(body, radix);
    if n == 0 then None else Some(DigitsValue(body[..n], radix))
  }

  lemma ProductNat(a: nat, b: nat)
    ensures a * b >= 0
  {
  }

  /** Whether a `0x`/`0X` prefix selects base 16. */
  predicate HasHexPrefix(u: string) {
    |u| >= 2 && u[0] == '0' && (u[1] == 'x' || u[1] == 'X')
  }

  /** `parseInt(s, 10)` (decimalOnly) or `parseInt(s)` (a `0x`/`0X` prefix
      then selects base 16). `None` stands for NaN. */
  function ParseInt(s: string, decimalOnly: bool): Option<int> {
    var t := TrimStart(s);
    var negative := |t| > 0 && t[0] == '-';
    var u := if |t| > 0 && (t[0] == '-' || t[0] == '+') then t[1..] else t;
    SignedDigits(u, negative, decimalOnly)
  }

  /** The digits after the sign, negated when the sign was `-`. */
  function SignedDigits(u: string, negative: bool, decimalOnly: bool): Option<int> {
    var hex := !decimalOnly && HasHexPrefix(u);
    match ParseDigits(if hex then u[2..] else u, if hex then 16 else 10)
    case None => None
    case Some(v) => var iv: int := v; Some(if negative then -iv else iv)
  }

  /** `parseInt(s) || default`: NaN and 0 both give the default. */
  function IntOr(p: Option<int>, default: int): (r: int)
    ensures p.Some? && p.value != 0 ==> r == p.value
    ensures p.None? || p.value == 0 ==> r == default
  {
    if p.Some? && p.value != 0 then p.value else default
  }

  function DigitChar(d: nat): char
    requires d < 10
  {
    ('0' as int + d) as char
  }

  /** Decimal digits of a natural number, no leading zero. */
  function NatToString(n: nat): (r: string)
    ensures |r| >= 1
    ensures forall i :: 0 <= i < |r| ==> '0' <= r[i] <= '9'
    decreases n
  {
    if n < 10 then [DigitChar(n)] else NatToString(n / 10) + [DigitChar(n % 10)]
  }

  /** `Number.prototype.toString()` of an integer. */
  function IntToString(n: int): (r: string)
    ensures |r| >= 1
  {
    if n < 0 then "-" + NatToString(-n) else NatToString(n)
  }

  lemma {:induction false} NatToStringValue(n: nat)
    ensures forall i :: 0 <= i < |NatToString(n)| ==> IsDigitIn(NatToString(n)[i], 10)
    ensures DigitsValue(NatToString(n), 10) == n
    decreases n
  {
    var r := NatToString(n);
    if n >= 10 {
      NatToStringValue(n / 10);
      assert r[..|r| - 1] == NatToString(n / 10);
    }
  }

  lemma {:induction false} DigitPrefixAll(ds: string, radix: nat)
    requires forall i :: 0 <= i < |ds| ==> IsDigitIn(ds[i], radix)
    ensures DigitPrefixLength(ds, radix) == |ds|
  {
    if |ds| > 0 { DigitPrefixAll(ds[1..], radix); }
  }

  /** A text that starts with a sign or a digit has no leading space. */
  lemma NoLeadingSpace(s: string)
    requires |s| > 0 && (s[0] == '-' || '0' <= s[0] <= '9')
    ensures TrimStart(s) == s
  {
    assert !IsWhitespace(s[0]);
    assert LeadingSpace(s) == 0;
  }

  /** `parseInt` of a run of decimal digits, possibly after a minus sign. */
  lemma ParseDecimalDigits(u: string, negative: bool, decimalOnly: bool, v: nat)
    requires |u| >= 1 && forall i :: 0 <= i < |u| ==> '0' <= u[i] <= '9'
    requires forall i :: 0 <= i < |u| ==> IsDigitIn(u[i], 10)
    requires v == DigitsValue(u, 10)
    ensures ParseInt(if negative then "-" + u else u, decimalOnly) == Some(if negative then -(v as int) else v as int)
  {
    DigitPrefixAll(u, 10);
    assert u[..|u|] == u;
    assert ParseDigits(u, 10) == Some(v);
    assert !HasHexPrefix(u);
    assert SignedDigits(u, negative, decimalOnly) == Some(if negative then -(v as int) else v as int);
    var s := if negative then "-" + u else u;
    assert s[0] == '-' || '0' <= s[0] <= '9';
    NoLeadingSpace(s);
    assert (|s| > 0 && s[0] == '-') == negative;
    assert (if |s| > 0 && (s[0] == '-' || s[0] == '+') then s[1..] else s) == u;
    assert ParseInt(s, decimalOnly) == SignedDigits(u, negative, decimalOnly);
  }

  /** Reading back a printed integer gives the integer. */
  lemma IntToStringParses(n: int, decimalOnly: bool)
    ensures ParseInt(IntToString(n), decimalOnly) == Some(n)
  {
    var m: nat := if n < 0 then -n else n;
    NatToStringValue(m);
    ParseDecimalDigits(NatToString(m), n < 0, decimalOnly, m);
  }
}
