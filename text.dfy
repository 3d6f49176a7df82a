/** Python string operations the core relies on, over `string` (sequences of code points). */
module Text {
  import opened Wrappers

  // ---------------------------------------------------------------------------
  // Prefixes and substrings (`str.startswith`, the `in` operator on strings)

  predicate StartsWith(s: string, prefix: string) {
    prefix <= s
  }

  /** `p in s` for strings. */
  predicate Contains(s: string, p: string)
    decreases |s|
  {
    p <= s || (s != [] && Contains(s[1..], p))
  }

  ghost predicate OccursAt(s: string, p: string, i: int) {
    0 <= i && i + |p| <= |s| && s[i..i + |p|] == p
  }

  lemma {:induction false} ContainsIff(s: string, p: string)
    ensures Contains(s, p) <==> exists i :: OccursAt(s, p, i)
    decreases |s|
  {
    if p <= s {
      assert OccursAt(s, p, 0);
    } else if s == [] {
    } else {
      ContainsIff(s[1..], p);
      if exists i :: OccursAt(s[1..], p, i) {
        var i :| OccursAt(s[1..], p, i);
        SliceOfTail(s, i, i + |p|);
        assert OccursAt(s, p, i + 1);
      }
      if exists i :: OccursAt(s, p, i) {
        var i :| OccursAt(s, p, i);
        if i != 0 {
          SliceOfTail(s, i - 1, i - 1 + |p|);
          assert OccursAt(s[1..], p, i - 1);
        }
      }
    }
  }

  lemma SliceOfTail(s: string, a: int, b: int)
    requires 0 <= a <= b <= |s| - 1
    ensures s[1..][a..b] == s[a + 1..b + 1]
  {
    assert forall j :: 0 <= j < b - a ==> s[1..][a..b][j] == s[a + 1 + j];
  }

  /** An occurrence that crosses the joint of `a + b` holds the characters on both sides of it. */
  lemma JointCharacters(a: string, b: string, p: string, i: int)
    ensures OccursAt(a + b, p, i) && i < |a| < i + |p| ==> a[|a| - 1] in p && b[0] in p
  {
    if OccursAt(a + b, p, i) && i < |a| < i + |p| {
      assert p[|a| - 1 - i] == (a + b)[|a| - 1];
      assert p[|a| - i] == (a + b)[|a|];
    }
  }

  /** An occurrence in a concatenation lies in one part, unless it crosses the joint,
      which it cannot do when a character at the joint does not occur in the pattern. */
  lemma ContainsAppend(a: string, b: string, p: string)
    requires a == [] || b == [] || a[|a| - 1] !in p || b[0] !in p
    ensures Contains(a + b, p) <==> Contains(a, p) || Contains(b, p)
  {
    ContainsInPart(a, b, p);
    ContainsExtend(a, b, p);
  }

  lemma ContainsInPart(a: string, b: string, p: string)
    requires a == [] || b == [] || a[|a| - 1] !in p || b[0] !in p
    ensures Contains(a + b, p) ==> Contains(a, p) || Contains(b, p)
  {
    var s := a + b;
    ContainsIff(s, p);
    if Contains(s, p) {
      var i :| OccursAt(s, p, i);
      JointCharacters(a, b, p, i);
      if i + |p| <= |a| {
        assert a[i..i + |p|] == s[i..i + |p|];
        assert OccursAt(a, p, i);
        ContainsIff(a, p);
      } else {
        assert b[i - |a|..i - |a| + |p|] == s[i..i + |p|];
        assert OccursAt(b, p, i - |a|);
        ContainsIff(b, p);
      }
    }
  }

  lemma ContainsExtend(a: string, b: string, p: string)
    ensures Contains(a, p) || Contains(b, p) ==> Contains(a + b, p)
  {
    var s := a + b;
    ContainsIff(a, p);
    ContainsIff(b, p);
    if Contains(a, p) {
      var i :| OccursAt(a, p, i);
      assert s[i..i + |p|] == a[i..i + |p|];
      assert OccursAt(s, p, i);
      ContainsIff(s, p);
    } else if Contains(b, p) {
      var i :| OccursAt(b, p, i);
      assert s[|a| + i..|a| + i + |p|] == b[i..i + |p|];
      assert OccursAt(s, p, |a| + i);
      ContainsIff(s, p);
    }
  }

  /** A string holding `p` holds its first character. */
  lemma {:induction false} ContainsFirstChar(s: string, p: string)
    requires Contains(s, p) && p != []
    ensures p[0] in s
    decreases |s|
  {
    if !(p <= s) {
      ContainsFirstChar(s[1..], p);
    }
  }

  /** A join holds `p` exactly when one of its parts does, when `p` cannot reach across or
      into the separator. */
  lemma {:induction false} JoinContains(sep: string, parts: seq<string>, p: string)
    requires sep != [] && sep[0] !in p && sep[|sep| - 1] !in p && !Contains(sep, p)
    ensures Contains(Join(sep, parts), p) <==> exists i :: 0 <= i < |parts| && Contains(parts[i], p)
    decreases |parts|
  {
    if |parts| == 1 {
      assert Join(sep, parts) == parts[0];
    } else if |parts| > 1 {
      var rest := Join(sep, parts[1..]);
      JoinContains(sep, parts[1..], p);
      ContainsAppend(parts[0], sep, p);
      ContainsAppend(parts[0] + sep, rest, p);
      assert Join(sep, parts) == parts[0] + sep + rest;
      assert forall i :: 1 <= i < |parts| ==> parts[i] == parts[1..][i - 1];
      if exists i :: 0 <= i < |parts| && Contains(parts[i], p) {
        var i :| 0 <= i < |parts| && Contains(parts[i], p);
        if i > 0 { assert Contains(parts[1..][i - 1], p); }
      }
    }
  }

  // ---------------------------------------------------------------------------
  // Python's ordering of strings: lexicographic by code point

  predicate LexLess(a: string, b: string)
    decreases |a|
  {
    if a == [] then b != []
    else if b == [] then false
    else if a[0] != b[0] then a[0] < b[0]
    else LexLess(a[1..], b[1..])
  }

  lemma {:induction false} LexLessIrreflexive(a: string)
    ensures !LexLess(a, a)
    decreases |a|
  {
    if a != [] { LexLessIrreflexive(a[1..]); }
  }

  lemma {:induction false} LexLessTransitive(a: string, b: string, c: string)
    requires LexLess(a, b) && LexLess(b, c)
    ensures LexLess(a, c)
    decreases |a|
  {
    if a != [] && b != [] && c != [] && a[0] == b[0] == c[0] {
      LexLessTransitive(a[1..], b[1..], c[1..]);
    }
  }

  lemma {:induction false} LexLessTotal(a: string, b: string)
    requires a != b
    ensures LexLess(a, b) || LexLess(b, a)
    decreases |a|
  {
    if a != [] && b != [] && a[0] == b[0] {
      assert a == [a[0]] + a[1..] && b == [b[0]] + b[1..];
      LexLessTotal(a[1..], b[1..]);
    }
  }

  // ---------------------------------------------------------------------------
  // Whitespace, stripping and splitting

  /** `str.isspace()` for one character. */
  predicate IsSpace(c: char) {
    c == ' ' || '\t' <= c <= '\r' || '\U{1c}' <= c <= '\U{1f}' || c == '\U{85}' || c == '\U{a0}'
    || c == '\U{1680}' || '\U{2000}' <= c <= '\U{200a}' || c == '\U{2028}' || c == '\U{2029}'
    || c == '\U{202f}' || c == '\U{205f}' || c == '\U{3000}'
  }

  /** The characters `str.splitlines()` breaks lines at (`\r\n` counts as one break). */
  predicate IsLineBreak(c: char) {
    '\n' <= c <= '\r' || '\U{1c}' <= c <= '\U{1e}' || c == '\U{85}' || c == '\U{2028}' || c == '\U{2029}'
  }

  predicate NoLineBreak(s: string) {
    forall i :: 0 <= i < |s| ==> !IsLineBreak(s[i])
  }

  /** What is left of `s` after its leading characters satisfying `drop` are removed. */
  function DropWhile(s: string, drop: char -> bool): (r: string)
    ensures |r| <= |s| && r == s[|s| - |r|..]
    ensures r == [] || !drop(r[0])
    ensures forall i :: 0 <= i < |s| - |r| ==> drop(s[i])
    decreases |s|
  {
    if s != [] && drop(s[0]) then
      var r := DropWhile(s[1..], drop);
      assert forall i :: 1 <= i < |s| ==> s[i] == s[1..][i - 1];
      r
    else s
  }

  /** What is left of `s` after its trailing characters satisfying `drop` are removed. */
  function DropWhileEnd(s: string, drop: char -> bool): (r: string)
    ensures |r| <= |s| && r == s[..|r|]
    ensures r == [] || !drop(r[|r| - 1])
    ensures forall i :: |r| <= i < |s| ==> drop(s[i])
    decreases |s|
  {
    if s != [] && drop(s[|s| - 1]) then
      var r := DropWhileEnd(s[..|s| - 1], drop);
      assert forall i :: 0 <= i < |s| - 1 ==> s[i] == s[..|s| - 1][i];
      r
    else s
  }

  /** `s.strip(chars)`: both ends trimmed of characters satisfying `drop`. */
  function StripBy(s: string, drop: char -> bool): string {
    DropWhileEnd(DropWhile(s, drop), drop)
  }

  /** `s.strip()`. */
  function Strip(s: string): string {
    StripBy(s, IsSpace)
  }

  predicate IsBar(c: char) {
    c == '|'
  }

  /** `s.strip("|")`. */
  function StripBars(s: string): string {
    StripBy(s, IsBar)
  }

  lemma {:induction false} DropWhilePadding(pre: string, y: string, drop: char -> bool)
    requires forall i :: 0 <= i < |pre| ==> drop(pre[i])
    requires y == [] || !drop(y[0])
    ensures DropWhile(pre + y, drop) == y
    decreases |pre|
  {
    if pre != [] {
      assert (pre + y)[1..] == pre[1..] + y;
      DropWhilePadding(pre[1..], y, drop);
    }
  }

  lemma {:induction false} DropWhileEndPadding(y: string, post: string, drop: char -> bool)
    requires forall i :: 0 <= i < |post| ==> drop(post[i])
    requires y == [] || !drop(y[|y| - 1])
    ensures DropWhileEnd(y + post, drop) == y
    decreases |post|
  {
    if post != [] {
      var p' := post[..|post| - 1];
      assert (y + post)[..|y + post| - 1] == y + p';
      DropWhileEndPadding(y, p', drop);
    } else {
      assert y + post == y;
    }
  }

  /** Stripping removes exactly a padding of dropped characters around a core that
      neither starts nor ends with one. */
  lemma StripPadded(pre: string, x: string, post: string, drop: char -> bool)
    requires forall i :: 0 <= i < |pre| ==> drop(pre[i])
    requires forall i :: 0 <= i < |post| ==> drop(post[i])
    requires x == [] || (!drop(x[0]) && !drop(x[|x| - 1]))
    ensures StripBy(pre + x + post, drop) == x
  {
    if x == [] {
      var pad := pre + post;
      assert pre + x + post == pad + [];
      assert forall i :: 0 <= i < |pad| ==> drop(pad[i]) by {
        forall i | 0 <= i < |pad| ensures drop(pad[i]) {
          if i < |pre| { assert pad[i] == pre[i]; } else { assert pad[i] == post[i - |pre|]; }
        }
      }
      DropWhilePadding(pad, [], drop);
    } else {
      assert pre + x + post == pre + (x + post);
      DropWhilePadding(pre, x + post, drop);
      DropWhileEndPadding(x, post, drop);
    }
  }

  /** The first field of `s.split(c)`: everything before the first `c`. */
  function SplitFirst(s: string, c: char): (r: string)
    ensures r <= s && c !in r
    ensures |r| < |s| ==> s[|r|] == c
    decreases |s|
  {
    if s == [] || s[0] == c then [] else [s[0]] + SplitFirst(s[1..], c)
  }

  /** Everything before the first `c` of a string that holds one is that prefix. */
  lemma {:induction false} SplitFirstAt(a: string, c: char, rest: string)
    requires c !in a
    ensures SplitFirst(a + [c] + rest, c) == a
    ensures SplitFirst(a, c) == a
    decreases |a|
  {
    if a != [] {
      assert (a + [c] + rest)[1..] == a[1..] + [c] + rest;
      SplitFirstAt(a[1..], c, rest);
    }
  }

  /** `s.split(c)` for a single character `c`: the pieces between the occurrences of `c`. */
  function Split(s: string, c: char): (r: seq<string>)
    ensures r != []
    decreases |s|
  {
    var f := SplitFirst(s, c);
    if |f| == |s| then [s] else [f] + Split(s[|f| + 1..], c)
  }

  /** `sep.join(parts)`. */
  function Join(sep: string, parts: seq<string>): string
    decreases |parts|
  {
    if parts == [] then []
    else if |parts| == 1 then parts[0]
    else parts[0] + sep + Join(sep, parts[1..])
  }

  /** Splitting a join at the separator character gives back the pieces when none holds it. */
  lemma {:induction false} SplitJoin(parts: seq<string>, c: char)
    requires parts != [] && forall i :: 0 <= i < |parts| ==> c !in parts[i]
    ensures Split(Join([c], parts), c) == parts
    decreases |parts|
  {
    if |parts| == 1 {
      SplitFirstAt(parts[0], c, []);
    } else {
      var rest := Join([c], parts[1..]);
      var s := parts[0] + [c] + rest;
      SplitFirstAt(parts[0], c, rest);
      assert s[|parts[0]| + 1..] == rest;
      SplitJoin(parts[1..], c);
    }
  }

  // ---------------------------------------------------------------------------
  // Lines

  /** Index of the first line-break character of `s`, or `|s|` when there is none. */
  function LineEnd(s: string): (i: nat)
    ensures i <= |s| && NoLineBreak(s[..i])
    ensures i < |s| ==> IsLineBreak(s[i])
    decreases |s|
  {
    if s == [] || IsLineBreak(s[0]) then 0 else 1 + LineEnd(s[1..])
  }

  /** `s.splitlines()`. */
  function SplitLines(s: string): seq<string>
    decreases |s|
  {
    if s == [] then []
    else
      var i := LineEnd(s);
      if i == |s| then [s]
      else
        var next := if s[i] == '\r' && i + 1 < |s| && s[i + 1] == '\n' then i + 2 else i + 1;
        [s[..i]] + SplitLines(s[next..])
  }

  /** Lines each terminated by a newline, as a file written line by line. */
  function Unlines(lines: seq<string>): string
    decreases |lines|
  {
    if lines == [] then [] else lines[0] + "\n" + Unlines(lines[1..])
  }

  /** Writing two blocks of lines one after the other writes all of them. */
  lemma {:induction false} UnlinesAppend(a: seq<string>, b: seq<string>)
    ensures Unlines(a + b) == Unlines(a) + Unlines(b)
    decreases |a|
  {
    if a != [] {
      assert (a + b)[1..] == a[1..] + b;
      UnlinesAppend(a[1..], b);
    } else {
      assert a + b == b;
    }
  }

  /** Reading back lines written one per line returns them, when none holds a line break. */
  lemma {:induction false} SplitLinesUnlines(lines: seq<string>)
    requires forall j :: 0 <= j < |lines| ==> NoLineBreak(lines[j])
    ensures SplitLines(Unlines(lines)) == lines
    decreases |lines|
  {
    if lines != [] {
      var l, rest := lines[0], Unlines(lines[1..]);
      var s := l + "\n" + rest;
      assert s == Unlines(lines);
      var i := LineEnd(s);
      assert i == |l| by {
        assert s[..|l|] == l;
        assert s[|l|] == '\n';
      }
      assert s[..i] == l;
      assert s[i + 1..] == rest;
      SplitLinesUnlines(lines[1..]);
    }
  }

  /** Joining with newlines and adding a final newline writes the lines one per line. */
  lemma {:induction false} JoinNewlines(lines: seq<string>)
    requires lines != []
    ensures Join("\n", lines) + "\n" == Unlines(lines)
    decreases |lines|
  {
    if |lines| > 1 {
      JoinNewlines(lines[1..]);
    }
  }

  // ---------------------------------------------------------------------------
  // Decimal numerals: `str(n)` and `int(s)` on plain digit strings

  predicate IsDigit(c: char) {
    '0' <= c <= '9'
  }

  function DigitChar(d: nat): (c: char)
    requires d < 10
    ensures IsDigit(c) && (c as int) - ('0' as int) == d
  {
    ['0', '1', '2', '3', '4', '5', '6', '7', '8', '9'][d]
  }

  /** `str(n)` for a non-negative integer. */
  function NatToString(n: nat): (s: string)
    ensures s != [] && forall i :: 0 <= i < |s| ==> IsDigit(s[i])
    decreases n
  {
    if n < 10 then [DigitChar(n)] else NatToString(n / 10) + [DigitChar(n % 10)]
  }

  /** `str(i)` for any integer. */
  function IntToString(i: int): string {
    if i < 0 then "-" + NatToString(-i) else NatToString(i)
  }

  function DigitValue(c: char): nat
    requires IsDigit(c)
  {
    (c as int) - ('0' as int)
  }

  function DigitsValue(s: string): nat
    requires forall i :: 0 <= i < |s| ==> IsDigit(s[i])
    decreases |s|
  {
    if s == [] then 0 else DigitsValue(s[..|s| - 1]) * 10 + DigitValue(s[|s| - 1])
  }

  /** `int(s)` for a non-empty string of ASCII digits; `None` stands for the ValueError. */
  function ParseDigits(s: string): Option<nat> {
    if s != [] && forall i :: 0 <= i < |s| ==> IsDigit(s[i]) then Some(DigitsValue(s)) else None
  }

  /** Printing a natural number and parsing it back gives the number. */
  lemma {:induction false} ParseNatToString(n: nat)
    ensures ParseDigits(NatToString(n)) == Some(n)
    decreases n
  {
    var s := NatToString(n);
    if n >= 10 {
      ParseNatToString(n / 10);
      assert s[..|s| - 1] == NatToString(n / 10);
      assert DigitValue(s[|s| - 1]) == n % 10;
      assert DigitsValue(s) == (n / 10) * 10 + n % 10;
    } else {
      assert DigitsValue(s) == DigitsValue([]) * 10 + DigitValue(s[0]);
    }
  }

  /** Distinct numbers print differently. */
  lemma NatToStringInjective(m: nat, n: nat)
    requires NatToString(m) == NatToString(n)
    ensures m == n
  {
    ParseNatToString(m);
    ParseNatToString(n);
  }
}
