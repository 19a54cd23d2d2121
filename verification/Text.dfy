/** Strings as the program prints and reads them: decimal numbers, separated lists, substrings. */
module Text {

  datatype Option<+T> = None | Some(value: T)

  // ---------------------------------------------------------------------------
  // Separators
  // ---------------------------------------------------------------------------

  /** `parts.join(sep)` */
  function Join(parts: seq<string>, sep: char): string {
    if |parts| == 0 then ""
    else if |parts| == 1 then parts[0]
    else parts[0] + [sep] + Join(parts[1..], sep)
  }

  /** `s.split(sep)`: never empty, one more part than there are separators. */
  function Split(s: string, sep: char): (parts: seq<string>)
    ensures |parts| >= 1
  {
    if s == "" then [""]
    else if s[0] == sep then [""] + Split(s[1..], sep)
    else
      var rest := Split(s[1..], sep);
      [[s[0]] + rest[0]] + rest[1..]
  }

  predicate Lacks(s: string, c: char) {
    forall i | 0 <= i < |s| :: s[i] != c
  }

  predicate AllLack(parts: seq<string>, c: char) {
    forall i | 0 <= i < |parts| :: Lacks(parts[i], c)
  }

  lemma {:induction false} SplitPrefix(a: string, rest: string, sep: char)
    requires Lacks(a, sep)
    ensures Split(a + [sep] + rest, sep) == [a] + Split(rest, sep)
  {
    var s := a + [sep] + rest;
    if a == "" {
      assert s[1..] == rest;
    } else {
      assert s[1..] == a[1..] + [sep] + rest;
      SplitPrefix(a[1..], rest, sep);
      assert [a[0]] + a[1..] == a;
    }
  }

  lemma {:induction false} SplitWhole(a: string, sep: char)
    requires Lacks(a, sep)
    ensures Split(a, sep) == [a]
  {
    if a == "" {
    } else {
      SplitWhole(a[1..], sep);
      assert [a[0]] + a[1..] == a;
    }
  }

  /** Splitting is the inverse of joining when no part holds the separator. */
  lemma {:induction false} SplitJoin(parts: seq<string>, sep: char)
    requires |parts| >= 1 && AllLack(parts, sep)
    ensures Split(Join(parts, sep), sep) == parts
  {
    if |parts| == 1 {
      SplitWhole(parts[0], sep);
    } else {
      SplitPrefix(parts[0], Join(parts[1..], sep), sep);
      SplitJoin(parts[1..], sep);
    }
  }

  /** The last separator of a text splits it in one way only. */
  lemma LastSeparatorUnique(a: string, b: string, a': string, b': string, c: char)
    requires a + [c] + b == a' + [c] + b'
    requires Lacks(b, c) && Lacks(b', c)
    ensures a == a' && b == b'
  {
    var s, s' := a + [c] + b, a' + [c] + b';
    assert s[|a|] == c && s'[|a'|] == c;
    assert forall k | |a| < k < |s| :: s[k] == b[k - |a| - 1] != c;
    assert forall k | |a'| < k < |s'| :: s'[k] == b'[k - |a'| - 1] != c;
    assert a == s[..|a|] && a' == s'[..|a'|];
    assert b == s[|a| + 1..] && b' == s'[|a'| + 1..];
  }

  /** The first separator of a text splits it in one way only. */
  lemma FirstSeparatorUnique(a: string, b: string, a': string, b': string, c: char)
    requires a + [c] + b == a' + [c] + b'
    requires Lacks(a, c) && Lacks(a', c)
    ensures a == a' && b == b'
  {
    var s, s' := a + [c] + b, a' + [c] + b';
    assert s[|a|] == c && s'[|a'|] == c;
    assert forall k | 0 <= k < |a| :: s[k] == a[k] != c;
    assert forall k | 0 <= k < |a'| :: s'[k] == a'[k] != c;
    assert a == s[..|a|] && a' == s'[..|a'|];
    assert b == s[|a| + 1..] && b' == s'[|a'| + 1..];
  }

  // ---------------------------------------------------------------------------
  // Substrings
  // ---------------------------------------------------------------------------

  predicate StartsWith(s: string, p: string) {
    p <= s
  }

  predicate OccursAt(s: string, p: string, i: int) {
    0 <= i && i + |p| <= |s| && s[i..i + |p|] == p
  }

  /** `s.indexOf(p)` counted from position `from` on; -1 when absent. */
  function IndexFrom(s: string, p: string, from: nat): (i: int)
    ensures i == -1 || from <= i
    ensures i >= 0 ==> OccursAt(s, p, i)
    ensures forall j | from <= j < (if i == -1 then |s| + 1 else i) :: !OccursAt(s, p, j)
    decreases |s| - from
  {
    if from + |p| > |s| then -1
    else if s[from..from + |p|] == p then from
    else IndexFrom(s, p, from + 1)
  }

  function IndexOf(s: string, p: string): int {
    IndexFrom(s, p, 0)
  }

  predicate Includes(s: string, p: string) {
    IndexOf(s, p) >= 0
  }

  /** `s.toLowerCase()` on ASCII letters. */
  function Lower(s: string): (t: string)
    ensures |t| == |s|
  {
    seq(|s|, i requires 0 <= i < |s| => if 'A' <= s[i] <= 'Z' then s[i] - 'A' + 'a' else s[i])
  }

  // ---------------------------------------------------------------------------
  // Numbers
  // ---------------------------------------------------------------------------

  predicate IsDigit(c: char) {
    '0' <= c <= '9'
  }

  predicate AllDigits(s: string) {
    forall i | 0 <= i < |s| :: IsDigit(s[i])
  }

  function DigitValue(c: char): (d: nat)
    requires IsDigit(c)
    ensures d < 10
  {
    (c - '0') as nat
  }

  function DigitChar(d: nat): (c: char)
    requires d < 10
    ensures IsDigit(c) && DigitValue(c) == d
  {
    '0' + d as char
  }

  /** Decimal text of a natural number. */
  function Dec(n: nat): (s: string)
    ensures |s| >= 1 && AllDigits(s)
  {
    if n < 10 then [DigitChar(n)] else Dec(n / 10) + [DigitChar(n % 10)]
  }

  function DigitsValue(s: string): nat
    requires AllDigits(s)
  {
    if s == "" then 0 else 10 * DigitsValue(s[..|s| - 1]) + DigitValue(s[|s| - 1])
  }

  lemma {:induction false} DecValue(n: nat)
    ensures DigitsValue(Dec(n)) == n
  {
    if n < 10 {
    } else {
      DecValue(n / 10);
      var s := Dec(n);
      assert s[..|s| - 1] == Dec(n / 10);
    }
  }

  lemma DecInjective(m: nat, n: nat)
    requires Dec(m) == Dec(n)
    ensures m == n
  {
    DecValue(m);
    DecValue(n);
  }

  /** Decimal text of an integer, as `String(i)`. */
  function Num(i: int): string {
    if i < 0 then "-" + Dec(-i) else Dec(i)
  }

  lemma NumChars(i: int)
    ensures |Num(i)| >= 1
    ensures forall k | 0 <= k < |Num(i)| :: IsDigit(Num(i)[k]) || Num(i)[k] == '-'
  {
  }

  predicate IsSpace(c: char) {
    c == ' ' || c == '\t' || c == '\n' || c == '\r' || c == '\U{0B}' || c == '\U{0C}' || c == '\U{A0}'
  }

  function TrimStart(s: string): string {
    if s != "" && IsSpace(s[0]) then TrimStart(s[1..]) else s
  }

  function TrimEnd(s: string): string {
    if s != "" && IsSpace(s[|s| - 1]) then TrimEnd(s[..|s| - 1]) else s
  }

  function Trim(s: string): string {
    TrimEnd(TrimStart(s))
  }

  function DigitPrefix(s: string): (p: string)
    ensures AllDigits(p)
  {
    if s != "" && IsDigit(s[0]) then [s[0]] + DigitPrefix(s[1..]) else ""
  }

  lemma {:induction false} DigitPrefixWhole(s: string)
    requires AllDigits(s)
    ensures DigitPrefix(s) == s
  {
    if s == "" {
    } else {
      DigitPrefixWhole(s[1..]);
    }
  }

  /** `parseInt(s, 10)`: optional space and sign, then as many digits as there are; None is NaN. */
  function ParseInt(s: string): Option<int> {
    var t := TrimStart(s);
    var signed := t != "" && (t[0] == '-' || t[0] == '+');
    var digits := DigitPrefix(if signed then t[1..] else t);
    if digits == "" then None
    else
      var n: int := DigitsValue(digits);
      Some(if signed && t[0] == '-' then -n else n)
  }

  lemma TakeSnoc<T>(s: seq<T>, n: nat)
    requires n < |s|
    ensures s[..n + 1] == s[..n] + [s[n]]
  {
  }

  lemma Associates<T>(a: seq<T>, b: seq<T>, c: seq<T>)
    ensures a + b + c == a + (b + c)
  {
  }

  lemma SplitLast<T>(s: seq<T>)
    requires s != []
    ensures s == s[..|s| - 1] + [s[|s| - 1]]
  {
  }

  lemma CutAt<T>(s: seq<T>, k: nat)
    requires k < |s|
    ensures s == s[..k] + [s[k]] + s[k + 1..]
  {
  }

  lemma TrimStartKeeps(s: string)
    requires s == "" || !IsSpace(s[0])
    ensures TrimStart(s) == s
  {
  }

  lemma ParseDigits(s: string)
    requires s != "" && AllDigits(s)
    ensures ParseInt(s) == Some(DigitsValue(s))
  {
    TrimStartKeeps(s);
    DigitPrefixWhole(s);
  }

  lemma ParseNegative(s: string)
    requires s != "" && AllDigits(s)
    ensures ParseInt("-" + s) == Some(-(DigitsValue(s) as int))
  {
    var t := "-" + s;
    assert t[1..] == s && t[0] == '-';
    DigitPrefixWhole(s);
    ParseSigned(t, s);
  }

  lemma ParseSigned(t: string, digits: string)
    requires t != "" && t[0] == '-' && digits != "" && AllDigits(digits) && DigitPrefix(t[1..]) == digits
    ensures ParseInt(t) == Some(-(DigitsValue(digits) as int))
  {
    TrimStartKeeps(t);
  }

  lemma ParseIntDec(n: nat)
    ensures ParseInt(Dec(n)) == Some(n)
  {
    ParseDigits(Dec(n));
    DecValue(n);
  }

  lemma ParseIntNum(i: int)
    ensures ParseInt(Num(i)) == Some(i)
  {
    if i < 0 {
      ParseNegative(Dec(-i));
      DecValue(-i);
    } else {
      ParseIntDec(i);
    }
  }
}
