/** The string operations of JavaScript that the POS code relies on, over `seq<char>`:
    decimal rendering (`toString`), `padStart`, `slice(-k)`, `parseInt`, `startsWith`,
    `includes`, `toLowerCase`, `trim`, `join`, `split` and `<` on strings. */
module Text {

  import opened Common

  // ---------------------------------------------------------------- digits

  predicate IsDigit(c: char) {
    '0' <= c <= '9'
  }

  predicate AllDigits(s: string) {
    forall i :: 0 <= i < |s| ==> IsDigit(s[i])
  }

  function DigitValue(c: char): (d: nat)
    requires IsDigit(c)
    ensures d < 10
  {
    c as int - '0' as int
  }

  function DigitChar(d: nat): (c: char)
    requires d < 10
    ensures IsDigit(c) && DigitValue(c) == d
  {
    ('0' as int + d) as char
  }

  /** The number a string of decimal digits denotes (leading zeros allowed). */
  function Value(s: string): nat
    requires AllDigits(s)
  {
    if s == [] then 0 else Value(s[..|s| - 1]) * 10 + DigitValue(s[|s| - 1])
  }

  /** `n.toString()` for a non-negative integer: decimal digits without leading zeros. */
  function NatToString(n: nat): (s: string)
    ensures |s| > 0 && AllDigits(s) && Value(s) == n
    ensures n > 0 ==> s[0] != '0'
    ensures n < 10 ==> |s| == 1
    ensures n < 100 ==> |s| <= 2
    ensures n < 1000 ==> |s| <= 3
    ensures n >= 10 ==> |s| >= 2
    ensures n >= 100 ==> |s| >= 3
  {
    if n < 10 then [DigitChar(n)]
    else
      var s := NatToString(n / 10) + [DigitChar(n % 10)];
      assert s[..|s| - 1] == NatToString(n / 10);
      s
  }

  /** `i.toString()` for any integer: a minus sign before the digits of a negative number. */
  function IntToString(i: int): (s: string)
    ensures |s| > 0
    ensures (s[0] == '-') <==> i < 0
  {
    if i < 0 then "-" + NatToString(-i) else NatToString(i)
  }

  lemma {:induction false} NatToStringInjective(m: nat, n: nat)
    requires NatToString(m) == NatToString(n)
    ensures m == n
  {
  }

  /** The last two digits of a number of at least two digits denote it modulo 100. */
  lemma LastTwoDigits(n: nat)
    requires n >= 10
    ensures |NatToString(n)| >= 2
    ensures NatToString(n)[|NatToString(n)| - 2..] == [DigitChar((n / 10) % 10), DigitChar(n % 10)]
  {
    var q := n / 10;
    var s := NatToString(q);
    assert NatToString(n) == s + [DigitChar(n % 10)];
    LastDigit(q);
    LastTwo(s, DigitChar(n % 10));
  }

  lemma LastTwo<T>(s: seq<T>, x: T)
    requires |s| > 0
    ensures (s + [x])[|s + [x]| - 2..] == [s[|s| - 1], x]
  {
  }

  /** The last character of a rendering is the units digit. */
  lemma LastDigit(n: nat)
    ensures NatToString(n)[|NatToString(n)| - 1] == DigitChar(n % 10)
  {
    if n >= 10 {
      assert NatToString(n) == NatToString(n / 10) + [DigitChar(n % 10)];
    }
  }

  lemma Value2(s: string)
    requires |s| == 2 && AllDigits(s)
    ensures Value(s) == 10 * DigitValue(s[0]) + DigitValue(s[1])
  {
    var h := s[..1];
    assert s[..|s| - 1] == h;
    assert h[..|h| - 1] == [];
    assert Value(h) == DigitValue(s[0]);
  }

  lemma Value3(s: string)
    requires |s| == 3 && AllDigits(s)
    ensures Value(s) == 100 * DigitValue(s[0]) + 10 * DigitValue(s[1]) + DigitValue(s[2])
  {
    var h := s[..2];
    assert s[..|s| - 1] == h;
    Value2(h);
    assert Value(s) == Value(h) * 10 + DigitValue(s[2]);
  }

  // ---------------------------------------------------------------- padding and slicing

  function Repeat(c: char, n: nat): (r: string)
    ensures |r| == n && forall i :: 0 <= i < n ==> r[i] == c
  {
    seq(n, _ => c)
  }

  /** `s.padStart(width, c)`: `c` repeated in front of `s` up to `width` characters. */
  function PadStart(s: string, width: nat, c: char): (r: string)
    ensures |r| == if |s| >= width then |s| else width
    ensures r[|r| - |s|..] == s
    ensures forall i :: 0 <= i < |r| - |s| ==> r[i] == c
  {
    if |s| >= width then s else Repeat(c, width - |s|) + s
  }

  /** Prefixing zeros does not change the number a digit string denotes. */
  lemma {:induction false} ValueLeadingZeros(m: nat, s: string)
    requires AllDigits(s)
    ensures AllDigits(Repeat('0', m) + s)
    ensures Value(Repeat('0', m) + s) == Value(s)
    decreases |s| + m
  {
    var z := Repeat('0', m);
    if s == [] {
      assert z + s == z;
      if m > 0 {
        assert z[..m - 1] == Repeat('0', m - 1);
        ValueLeadingZeros(m - 1, []);
        assert Repeat('0', m - 1) + [] == Repeat('0', m - 1);
      }
    } else {
      var t := z + s;
      assert t[..|t| - 1] == z + s[..|s| - 1];
      ValueLeadingZeros(m, s[..|s| - 1]);
    }
  }

  /** `s.slice(-k)` for `k >= 1`: the last `k` characters, or all of `s` when it is shorter. */
  function Last(s: string, k: nat): (r: string)
    requires k >= 1
    ensures |r| == if |s| <= k then |s| else k
    ensures r == s[|s| - |r|..]
  {
    if |s| <= k then s else s[|s| - k..]
  }

  // ---------------------------------------------------------------- parseInt

  /** The longest prefix of `s` made of decimal digits. */
  function LeadingDigits(s: string): (r: string)
    ensures AllDigits(r) && |r| <= |s| && r == s[..|r|]
    ensures |r| < |s| ==> !IsDigit(s[|r|])
  {
    if s == [] || !IsDigit(s[0]) then [] else [s[0]] + LeadingDigits(s[1..])
  }

  /** `parseInt(s)` on text that carries no sign and no leading blanks: the value of the
      leading digits, or `None` (JavaScript's NaN) when `s` does not start with a digit. */
  function ParseInt(s: string): (r: Option<nat>)
    ensures r.None? <==> (s == [] || !IsDigit(s[0]))
  {
    var d := LeadingDigits(s);
    if d == [] then None else Some(Value(d))
  }

  lemma ParseAllDigits(s: string)
    requires s != [] && AllDigits(s)
    ensures ParseInt(s) == Some(Value(s))
  {
    var d := LeadingDigits(s);
    assert |d| == |s|;
    assert d == s;
  }

  /** `parseInt` reads back what `toString` wrote. */
  lemma ParseNatToString(n: nat)
    ensures ParseInt(NatToString(n)) == Some(n)
  {
    ParseAllDigits(NatToString(n));
  }

  // ---------------------------------------------------------------- comparison and search

  /** `s.startsWith(p)`, also what the anchored pattern `^p` tests. */
  predicate StartsWith(s: string, p: string) {
    |p| <= |s| && s[..|p|] == p
  }

  /** `a < b` on strings: lexicographic order of characters, a proper prefix first. */
  predicate Less(a: string, b: string) {
    if a == [] then b != []
    else if b == [] then false
    else if a[0] != b[0] then a[0] < b[0]
    else Less(a[1..], b[1..])
  }

  lemma {:induction false} LessIrreflexive(a: string)
    ensures !Less(a, a)
  {
    if a != [] {
      LessIrreflexive(a[1..]);
    }
  }

  lemma {:induction false} LessAsymmetric(a: string, b: string)
    requires Less(a, b)
    ensures !Less(b, a)
  {
    if a != [] && b != [] && a[0] == b[0] {
      LessAsymmetric(a[1..], b[1..]);
    }
  }

  lemma {:induction false} LessTransitive(a: string, b: string, c: string)
    requires Less(a, b) && Less(b, c)
    ensures Less(a, c)
  {
    if a != [] && a[0] == b[0] && b[0] == c[0] {
      LessTransitive(a[1..], b[1..], c[1..]);
    }
  }

  lemma {:induction false} LessTotal(a: string, b: string)
    requires a != b
    ensures Less(a, b) || Less(b, a)
  {
    if a != [] && b != [] && a[0] == b[0] {
      assert a == [a[0]] + a[1..] && b == [b[0]] + b[1..];
      LessTotal(a[1..], b[1..]);
    }
  }

  /** A common prefix does not decide the comparison. */
  lemma {:induction false} LessCommonPrefix(p: string, x: string, y: string)
    ensures Less(p + x, p + y) == Less(x, y)
  {
    if p != [] {
      assert (p + x)[1..] == p[1..] + x;
      assert (p + y)[1..] == p[1..] + y;
      LessCommonPrefix(p[1..], x, y);
    } else {
      assert p + x == x && p + y == y;
    }
  }

  /** On three-digit strings the string order is the numeric order. */
  lemma LessDigits3(x: string, y: string)
    requires |x| == 3 && |y| == 3 && AllDigits(x) && AllDigits(y)
    ensures Less(x, y) <==> Value(x) < Value(y)
  {
    Value3(x);
    Value3(y);
    var x1, y1 := x[1..], y[1..];
    var x2, y2 := x1[1..], y1[1..];
    assert x1[0] == x[1] && y1[0] == y[1] && x2 == [x[2]] && y2 == [y[2]];
    assert x2[1..] == [] && y2[1..] == [];
    assert Less(x2, y2) <==> x[2] < y[2];
    assert Less(x1, y1) <==> (x[1] < y[1] || (x[1] == y[1] && x[2] < y[2]));
    assert Less(x, y) <==> (x[0] < y[0] || (x[0] == y[0] && Less(x1, y1)));
  }

  /** `t` occurs in `s` starting at position `i`. */
  predicate OccursAt(s: string, t: string, i: int) {
    0 <= i <= |s| - |t| && s[i..i + |t|] == t
  }

  /** `includes`: `t` occurs somewhere in `s` as a contiguous run. */
  predicate Contains(s: string, t: string) {
    exists i | 0 <= i <= |s| - |t| :: OccursAt(s, t, i)
  }

  lemma ContainsEmpty(s: string)
    ensures Contains(s, "")
  {
    var t: string := "";
    assert s[0..0] == t;
    assert OccursAt(s, t, 0);
  }

  /** `toLowerCase` on the ASCII letters; other characters are kept. */
  function LowerChar(c: char): char {
    if 'A' <= c <= 'Z' then (c as int + 32) as char else c
  }

  function ToLower(s: string): (r: string)
    ensures |r| == |s|
  {
    seq(|s|, i requires 0 <= i < |s| => LowerChar(s[i]))
  }

  // ---------------------------------------------------------------- trim

  /** The characters `String.prototype.trim` removes: ECMAScript white space and line terminators. */
  predicate IsSpace(c: char) {
    c == '\t' || c == '\n' || c == '\U{0B}' || c == '\U{0C}' || c == '\r' || c == ' '
    || c == '\U{A0}' || c == '\U{1680}' || ('\U{2000}' <= c <= '\U{200A}')
    || c == '\U{2028}' || c == '\U{2029}' || c == '\U{202F}' || c == '\U{205F}'
    || c == '\U{3000}' || c == '\U{FEFF}'
  }

  predicate IsTrimmed(s: string) {
    s == [] || (!IsSpace(s[0]) && !IsSpace(s[|s| - 1]))
  }

  /** The number of white-space characters `s` starts with. */
  function Lead(s: string): (n: nat)
    ensures n <= |s|
    ensures forall i :: 0 <= i < n ==> IsSpace(s[i])
    ensures n < |s| ==> !IsSpace(s[n])
  {
    if s != [] && IsSpace(s[0]) then
      var n := Lead(s[1..]);
      assert forall i :: 1 <= i < 1 + n ==> s[i] == s[1..][i - 1];
      1 + n
    else 0
  }

  /** The number of white-space characters `s` ends with. */
  function Trail(s: string): (n: nat)
    ensures n <= |s|
    ensures forall i :: |s| - n <= i < |s| ==> IsSpace(s[i])
    ensures n < |s| ==> !IsSpace(s[|s| - n - 1])
  {
    if s != [] && IsSpace(s[|s| - 1]) then
      var n := Trail(s[..|s| - 1]);
      assert forall i :: |s| - 1 - n <= i < |s| - 1 ==> s[i] == s[..|s| - 1][i];
      1 + n
    else 0
  }

  /** `trimStart`: `s` without its leading white space. */
  function TrimStart(s: string): string {
    s[Lead(s)..]
  }

  /** `trimEnd`: `s` without its trailing white space. */
  function TrimEnd(s: string): string {
    s[..|s| - Trail(s)]
  }

  /** `s.trim()`: the infix of `s` that starts where its leading white space ends. Only white
      space is dropped on either side, and none is left at either end, so it is the longest
      such infix. */
  function Trim(s: string): (r: string)
    ensures IsTrimmed(r)
    ensures Lead(s) + |r| <= |s| && r == s[Lead(s)..Lead(s) + |r|]
    ensures forall i :: 0 <= i < Lead(s) ==> IsSpace(s[i])
    ensures forall i :: Lead(s) + |r| <= i < |s| ==> IsSpace(s[i])
  {
    var t := TrimStart(s);
    TrimmedInfix(s, Lead(s), t, Trail(t));
    TrimEnd(t)
  }

  /** Taking `a` leading and `m` trailing white-space characters off `s`, where the characters
      next to the cuts are not white space, leaves a trimmed infix. */
  lemma TrimmedInfix(s: string, a: nat, t: string, m: nat)
    requires a <= |s| && t == s[a..] && m <= |t|
    requires forall i :: |t| - m <= i < |t| ==> IsSpace(t[i])
    requires a < |s| ==> !IsSpace(s[a])
    requires m < |t| ==> !IsSpace(t[|t| - m - 1])
    ensures IsTrimmed(t[..|t| - m])
    ensures a + |t| - m <= |s| && t[..|t| - m] == s[a..a + |t| - m]
    ensures forall i :: a + |t| - m <= i < |s| ==> IsSpace(s[i])
  {
    forall i | a + |t| - m <= i < |s|
      ensures IsSpace(s[i])
    {
      assert s[i] == t[i - a];
    }
  }

  /** Trimming a trimmed string changes nothing, so `trim` is idempotent. */
  lemma TrimTrimmed(s: string)
    requires IsTrimmed(s)
    ensures Trim(s) == s
  {
    assert TrimStart(s) == s;
  }

  // ---------------------------------------------------------------- join and split

  /** `join`: the parts with `sep` between neighbours. */
  function Join(parts: seq<string>, sep: string): string {
    if |parts| == 0 then ""
    else if |parts| == 1 then parts[0]
    else parts[0] + sep + Join(parts[1..], sep)
  }

  /** The first position of `c` in `s`, or `|s|` when there is none. */
  function IndexOf(s: string, c: char): (i: nat)
    ensures i <= |s| && (i < |s| ==> s[i] == c)
    ensures forall j :: 0 <= j < i ==> s[j] != c
  {
    if s == [] then 0 else if s[0] == c then 0 else 1 + IndexOf(s[1..], c)
  }

  /** `s.split(c)` for a one-character separator. */
  function Split(s: string, c: char): (r: seq<string>)
    ensures |r| > 0
    ensures forall k :: 0 <= k < |r| ==> c !in r[k]
    decreases |s|
  {
    var i := IndexOf(s, c);
    if i == |s| then [s]
    else
      var first := s[..i];
      assert c !in first by {
        assert forall j :: 0 <= j < |first| ==> first[j] == s[j];
      }
      [first] + Split(s[i + 1..], c)
  }

  /** A joined string holds a character only if a part or the separator does. */
  lemma {:induction false} JoinExcludes(parts: seq<string>, sep: string, c: char)
    requires c !in sep
    requires forall k :: 0 <= k < |parts| ==> c !in parts[k]
    ensures c !in Join(parts, sep)
  {
    if |parts| > 1 {
      JoinExcludes(parts[1..], sep, c);
    }
  }

  /** A rendered integer holds only digits and perhaps a leading minus sign. */
  lemma IntToStringExcludes(i: int, c: char)
    requires c != '-' && !IsDigit(c)
    ensures c !in IntToString(i)
  {
    var s := if i < 0 then NatToString(-i) else NatToString(i);
    assert c !in s by {
      assert forall j :: 0 <= j < |s| ==> IsDigit(s[j]);
    }
  }

  /** Splitting a joined list gives back the list, provided no part holds the separator. */
  lemma {:induction false} SplitJoin(parts: seq<string>, c: char)
    requires |parts| > 0
    requires forall k :: 0 <= k < |parts| ==> c !in parts[k]
    ensures Split(Join(parts, [c]), c) == parts
  {
    var first := parts[0];
    if |parts| == 1 {
      assert forall j :: 0 <= j < |first| ==> first[j] != c;
    } else {
      var rest := Join(parts[1..], [c]);
      var s := first + [c] + rest;
      var i := IndexOf(s, c);
      assert forall j :: 0 <= j < |first| ==> s[j] == first[j] && first[j] != c;
      assert s[|first|] == c;
      assert i == |first|;
      assert s[..i] == first;
      assert s[i + 1..] == rest;
      SplitJoin(parts[1..], c);
    }
  }
}
