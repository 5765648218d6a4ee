/** The JavaScript string operations the adapter relies on, with their edge
    semantics written out: `includes`, `indexOf` (-1 when absent), `substr`
    (negative start counts from the end, negative length means empty),
    `replace` with a string pattern (first occurrence only), `split('.')`
    keeping the last piece, counting `%` with a global regex, ASCII case
    mapping and decimal rendering of indices (`'@p' + i.toString()`). */
module JsText {

  datatype Option<T> = None | Some(value: T)

  /** `sub` occurs in `s` starting at position `k`. */
  predicate OccursAt(s: string, sub: string, k: nat)
  {
    k + |sub| <= |s| && s[k..k + |sub|] == sub
  }

  /** `s.indexOf(sub, from)`: the first occurrence at or after `from`, or -1. */
  function IndexFrom(s: string, sub: string, from: nat): (r: int)
    ensures r == -1 || (from <= r && OccursAt(s, sub, r))
    ensures r == -1 <==> forall k: nat :: from <= k ==> !OccursAt(s, sub, k)
    ensures r >= 0 ==> forall k: nat :: from <= k < r ==> !OccursAt(s, sub, k)
    decreases |s| - from
  {
    if from + |sub| > |s| then -1
    else if s[from..from + |sub|] == sub then from
    else IndexFrom(s, sub, from + 1)
  }

  /** `s.indexOf(sub)`. */
  function IndexOf(s: string, sub: string): (r: int)
    ensures -1 <= r <= |s|
    ensures r == -1 <==> forall k: nat :: !OccursAt(s, sub, k)
    ensures r >= 0 ==> OccursAt(s, sub, r) && forall k: nat :: k < r ==> !OccursAt(s, sub, k)
  {
    IndexFrom(s, sub, 0)
  }

  /** `s.includes(sub)`. */
  predicate Includes(s: string, sub: string)
  {
    IndexOf(s, sub) >= 0
  }

  lemma IncludesAt(s: string, sub: string, k: nat)
    requires OccursAt(s, sub, k)
    ensures Includes(s, sub)
  {
  }

  lemma NotIncludedNowhere(s: string, sub: string, k: nat)
    requires !Includes(s, sub)
    ensures !OccursAt(s, sub, k)
  {
  }

  /** A string occurring in a part of `s` also occurs in `s`. */
  lemma IncludesInConcat(a: string, b: string, sub: string)
    ensures Includes(a, sub) ==> Includes(a + b, sub)
    ensures Includes(b, sub) ==> Includes(a + b, sub)
  {
    if Includes(a, sub) {
      IncludesInFront(a, b, sub);
    }
    if Includes(b, sub) {
      IncludesInBack(a, b, sub);
    }
  }

  lemma IncludesInFront(a: string, b: string, sub: string)
    requires Includes(a, sub)
    ensures Includes(a + b, sub)
  {
    var k: nat := IndexOf(a, sub);
    assert OccursAt(a, sub, k);
    assert (a + b)[k..k + |sub|] == a[k..k + |sub|];
    assert OccursAt(a + b, sub, k);
    IncludesAt(a + b, sub, k);
  }

  lemma IncludesInBack(a: string, b: string, sub: string)
    requires Includes(b, sub)
    ensures Includes(a + b, sub)
  {
    var k: nat := IndexOf(b, sub);
    assert OccursAt(b, sub, k);
    assert (a + b)[|a| + k..|a| + k + |sub|] == b[k..k + |sub|];
    assert OccursAt(a + b, sub, |a| + k);
    IncludesAt(a + b, sub, |a| + k);
  }

  /** `s.substr(start, length)`: a negative start counts back from the end
      (clamped at 0), a start past the end gives "", a negative length
      gives "", and the piece is cut at the end of `s`. */
  function Substr(s: string, start: int, length: int): (r: string)
    ensures |r| <= |s|
    ensures 0 <= start <= |s| && 0 <= length ==>
              r == s[start..if start + length <= |s| then start + length else |s|]
    ensures start < 0 && 0 <= length && start + |s| >= 0 ==>
              r == s[start + |s|..if start + |s| + length <= |s| then start + |s| + length else |s|]
    ensures length <= 0 ==> r == ""
  {
    var size := |s|;
    var from := if start < 0 then (if size + start > 0 then size + start else 0)
                else if start > size then size else start;
    var len := if length < 0 then 0 else if length > size - from then size - from else length;
    s[from..from + len]
  }

  /** The text of the replacement pattern `$c`, or None when `$c` is not
      one of the patterns a string search knows. */
  function PatternText(c: char, matched: string, before: string, after: string): Option<string>
  {
    if c == '$' then Some("$")
    else if c == '&' then Some(matched)
    else if c == '`' then Some(before)
    else if c == '\'' then Some(after)
    else None
  }

  predicate NoDollar(s: string)
  {
    forall k :: 0 <= k < |s| ==> s[k] != '$'
  }

  /** The replacement text `replace` inserts for a string pattern, which
      has no capture groups: `$$` gives `$`, `$&` the matched text, `` $` ``
      the text before the match and `$'` the text after it; every other `$`
      (`$<`, `$1`, a trailing `$`) is kept as it is. */
  function ExpandReplacement(repl: string, matched: string, before: string, after: string): string
    decreases |repl|
  {
    if repl == [] then []
    else if repl[0] == '$' && |repl| >= 2 && PatternText(repl[1], matched, before, after).Some? then
      PatternText(repl[1], matched, before, after).value + ExpandReplacement(repl[2..], matched, before, after)
    else [repl[0]] + ExpandReplacement(repl[1..], matched, before, after)
  }

  lemma NoDollarTail(a: string)
    requires a != [] && NoDollar(a)
    ensures a[0] != '$' && NoDollar(a[1..])
  {
    forall k | 0 <= k < |a[1..]| ensures a[1..][k] != '$' {
      assert a[1..][k] == a[k + 1];
    }
  }

  lemma ExpandLiteralHead(c: char, t: string, matched: string, before: string, after: string)
    requires c != '$'
    ensures ExpandReplacement([c] + t, matched, before, after) == [c] + ExpandReplacement(t, matched, before, after)
  {
    assert ([c] + t)[0] == c && ([c] + t)[1..] == t;
  }

  /** Text without `$` in front of a replacement is inserted as it is. */
  lemma {:induction false} ExpandLiteralPrefix(a: string, b: string, matched: string, before: string, after: string)
    requires NoDollar(a)
    ensures ExpandReplacement(a + b, matched, before, after) == a + ExpandReplacement(b, matched, before, after)
    decreases |a|
  {
    if a != [] {
      NoDollarTail(a);
      ExpandLiteralPrefix(a[1..], b, matched, before, after);
      assert a + b == [a[0]] + (a[1..] + b);
      ExpandLiteralHead(a[0], a[1..] + b, matched, before, after);
      var rest := ExpandReplacement(b, matched, before, after);
      assert [a[0]] + (a[1..] + rest) == a + rest;
    } else {
      assert a + b == b;
    }
  }

  /** A replacement without `$` is inserted as it is. */
  lemma ExpandWithoutDollar(repl: string, matched: string, before: string, after: string)
    requires NoDollar(repl)
    ensures ExpandReplacement(repl, matched, before, after) == repl
  {
    ExpandLiteralPrefix(repl, [], matched, before, after);
    assert repl + [] == repl;
  }

  /** `s.replace(pattern, replacement)` with a string pattern: only the first
      occurrence is replaced, by the expanded replacement; without one the
      string is returned unchanged. */
  function ReplaceFirst(s: string, pattern: string, replacement: string): (r: string)
    ensures !Includes(s, pattern) ==> r == s
    ensures Includes(s, pattern) ==>
              var k := IndexOf(s, pattern);
              var e := ExpandReplacement(replacement, pattern, s[..k], s[k + |pattern|..]);
              |r| == |s| - |pattern| + |e| && r[..k] == s[..k] && r[k..k + |e|] == e &&
              r[k + |e|..] == s[k + |pattern|..]
  {
    var k := IndexOf(s, pattern);
    if k < 0 then s else s[..k] + ExpandReplacement(replacement, pattern, s[..k], s[k + |pattern|..]) + s[k + |pattern|..]
  }

  lemma ConcatRegroup(a: string, b: string, c: string, d: string)
    ensures a + (b + c) + d == a + b + c + d
  {
  }

  /** Replacing the first `p` by `p + w + x`, where `p` and `w` have no
      `$`: `w` goes in as it is, then the expansion of `x`; a tail `x`
      without `$` goes in as it is too. */
  lemma ReplaceFirstInsertsWords(s: string, p: string, w: string, x: string)
    requires Includes(s, p) && NoDollar(p) && NoDollar(w)
    ensures var k := IndexOf(s, p) + |p|;
            |p| <= k <= |s|
            && ReplaceFirst(s, p, p + w + x) == s[..k] + w + ExpandReplacement(x, p, s[..k - |p|], s[k..]) + s[k..]
            && (NoDollar(x) ==> ReplaceFirst(s, p, p + w + x) == s[..k] + w + x + s[k..])
  {
    assert p + w + x == p + (w + x);
    ReplaceFirstInsertsAfter(s, p, w + x);
    var k := IndexOf(s, p) + |p|;
    var before, after := s[..k - |p|], s[k..];
    ExpandLiteralPrefix(w, x, p, before, after);
    ConcatRegroup(s[..k], w, ExpandReplacement(x, p, before, after), after);
    if NoDollar(x) {
      ExpandWithoutDollar(x, p, before, after);
    }
  }

  /** Splicing `e` in after an occurrence of `p` at `i`. */
  lemma SpliceAfter(s: string, i: nat, p: string, e: string)
    requires i + |p| <= |s| && s[i..i + |p|] == p
    ensures s[..i] + (p + e) + s[i + |p|..] == s[..i + |p|] + e + s[i + |p|..]
  {
    assert s[..i + |p|] == s[..i] + p;
  }

  /** Replacing the first `p` (which has no `$`) by `p + x` inserts the
      expansion of `x` right after that `p`. */
  lemma ReplaceFirstInsertsAfter(s: string, p: string, x: string)
    requires Includes(s, p) && NoDollar(p)
    ensures var k := IndexOf(s, p) + |p|;
            |p| <= k <= |s| && ReplaceFirst(s, p, p + x) == s[..k] + ExpandReplacement(x, p, s[..k - |p|], s[k..]) + s[k..]
  {
    var i := IndexOf(s, p);
    assert OccursAt(s, p, i);
    var k := i + |p|;
    var head, tail := s[..i], s[k..];
    var e := ExpandReplacement(x, p, head, tail);
    assert ReplaceFirst(s, p, p + x) == head + ExpandReplacement(p + x, p, head, tail) + tail;
    ExpandLiteralPrefix(p, x, p, head, tail);
    SpliceAfter(s, i, p, e);
  }

  /** `(s.match(/c/g) || []).length` for a single character `c`. */
  function CountChar(s: string, c: char): (n: nat)
    ensures n == multiset(s)[c]
    ensures n <= |s|
    ensures n == 0 <==> c !in s
  {
    if s == [] then 0
    else
      assert s == [s[0]] + s[1..];
      (if s[0] == c then 1 else 0) + CountChar(s[1..], c)
  }

  /** `s.split(sep)` and keep the last piece. */
  function LastSegment(s: string, sep: char): (r: string)
    ensures sep !in r
    ensures |r| <= |s| && r == s[|s| - |r|..]
    ensures |r| < |s| ==> s[|s| - |r| - 1] == sep
    ensures sep !in s ==> r == s
    decreases |s|
  {
    if s == [] then ""
    else if s[|s| - 1] == sep then ""
    else
      var front := LastSegment(s[..|s| - 1], sep);
      LastSegmentGrows(s, sep, front);
      front + [s[|s| - 1]]
  }

  /** The last piece of `s` is the last piece of `s` without its final
      character, followed by that character when it is not `sep`. */
  lemma LastSegmentGrows(s: string, sep: char, front: string)
    requires s != [] && s[|s| - 1] != sep
    requires var p := s[..|s| - 1];
             sep !in front && |front| <= |p| && front == p[|p| - |front|..]
             && (|front| < |p| ==> p[|p| - |front| - 1] == sep)
             && (sep !in p ==> front == p)
    ensures var r := front + [s[|s| - 1]];
            sep !in r && |r| <= |s| && r == s[|s| - |r|..]
            && (|r| < |s| ==> s[|s| - |r| - 1] == sep)
            && (sep !in s ==> r == s)
  {
    var p := s[..|s| - 1];
    assert s == p + [s[|s| - 1]];
    assert s[|s| - |front| - 1..] == p[|p| - |front|..] + [s[|s| - 1]];
    if sep !in s {
      assert sep !in p;
    }
  }

  /** `s.split(sep)[0]`: everything before the first `sep`. */
  function FirstSegment(s: string, sep: char): (r: string)
    ensures sep !in r
    ensures |r| <= |s| && r == s[..|r|]
    ensures |r| < |s| ==> s[|r|] == sep
    ensures sep !in s ==> r == s
  {
    if s == [] || s[0] == sep then ""
    else [s[0]] + FirstSegment(s[1..], sep)
  }

  function LowerChar(c: char): char
  {
    if 'A' <= c <= 'Z' then (c as int + 32) as char else c
  }

  function UpperChar(c: char): char
  {
    if 'a' <= c <= 'z' then (c as int - 32) as char else c
  }

  /** `s.toLowerCase()` on the ASCII letters. */
  function ToLower(s: string): (r: string)
    ensures |r| == |s|
    ensures forall k :: 0 <= k < |s| ==> r[k] == LowerChar(s[k])
  {
    seq(|s|, k requires 0 <= k < |s| => LowerChar(s[k]))
  }

  /** `s.toUpperCase()` on the ASCII letters. */
  function ToUpper(s: string): (r: string)
    ensures |r| == |s|
    ensures forall k :: 0 <= k < |s| ==> r[k] == UpperChar(s[k])
  {
    seq(|s|, k requires 0 <= k < |s| => UpperChar(s[k]))
  }

  lemma ToUpperConcat(a: string, b: string)
    ensures ToUpper(a + b) == ToUpper(a) + ToUpper(b)
  {
  }

  predicate IsDigit(c: char)
  {
    '0' <= c <= '9'
  }

  function DigitValue(c: char): nat
    requires IsDigit(c)
  {
    c as int - '0' as int
  }

  /** The number a run of decimal digits denotes (`+"123"`). */
  function DigitsValue(d: string): nat
    requires forall k :: 0 <= k < |d| ==> IsDigit(d[k])
    decreases |d|
  {
    if d == [] then 0 else DigitsValue(d[..|d| - 1]) * 10 + DigitValue(d[|d| - 1])
  }

  /** `n.toString()` for a natural number. */
  function NatToString(n: nat): (r: string)
    ensures |r| >= 1
    ensures forall k :: 0 <= k < |r| ==> IsDigit(r[k])
    ensures r[0] == '0' ==> n == 0 && r == "0"
    decreases n
  {
    if n < 10 then [('0' as int + n) as char]
    else NatToString(n / 10) + [('0' as int + n % 10) as char]
  }

  /** Rendering an index and reading it back gives the index again. */
  lemma {:induction false} NatToStringRoundTrip(n: nat)
    ensures DigitsValue(NatToString(n)) == n
    decreases n
  {
    var r := NatToString(n);
    if n >= 10 {
      NatToStringRoundTrip(n / 10);
      assert r[..|r| - 1] == NatToString(n / 10);
    }
  }

  /** Different indices render differently, so `'@p' + i` names one parameter. */
  lemma NatToStringInjective(m: nat, n: nat)
    requires NatToString(m) == NatToString(n)
    ensures m == n
  {
    NatToStringRoundTrip(m);
    NatToStringRoundTrip(n);
  }

  /** `'' + x` for an integer `x`. */
  function IntToString(x: int): (r: string)
    ensures |r| >= 1
    ensures x < 0 <==> r[0] == '-'
    ensures x >= 0 ==> r == NatToString(x)
    ensures x < 0 ==> r == "-" + NatToString(-x)
  {
    if x < 0 then "-" + NatToString(-x) else NatToString(x)
  }

  /** After the sign, `'' + x` is the decimal digits of `|x|`. */
  lemma IntToStringValue(x: int)
    ensures var digits := if x < 0 then IntToString(x)[1..] else IntToString(x);
            (forall k :: 0 <= k < |digits| ==> IsDigit(digits[k]))
            && DigitsValue(digits) == if x < 0 then -x else x
  {
    if x < 0 {
      assert IntToString(x)[1..] == NatToString(-x);
      NatToStringRoundTrip(-x);
    } else {
      NatToStringRoundTrip(x);
    }
  }
}
