/** The `$N` template rewrite of lib/send-native-query.js, used when the
    statement was compiled without question-mark placeholders: every `$N`
    reference is replaced by the escaped N-th value. */
module TemplateRewrite {
  import opened JsText
  import opened JsValue

  /** The longest run of decimal digits at the head of `s`. */
  function DigitRun(s: string): (d: string)
    ensures |d| <= |s| && d == s[..|d|] && AllDigits(d)
    ensures |d| < |s| ==> !IsDigit(s[|d|])
    ensures |s| > 0 && IsDigit(s[0]) ==> |d| >= 1
  {
    if s == [] || !IsDigit(s[0]) then "" else [s[0]] + DigitRun(s[1..])
  }

  /** A digit run that does not start with 0 denotes at least 1. */
  lemma {:induction false} LeadingDigitPositive(d: string)
    requires |d| >= 1 && AllDigits(d) && d[0] != '0'
    ensures DigitsValue(d) >= 1
    decreases |d|
  {
    if |d| > 1 {
      LeadingDigitPositive(d[..|d| - 1]);
    }
  }

  /** `sql.replace(/\$[1-9][0-9]*\/g, ...)`: scanning left to right, each
      `$N` (a maximal digit run not starting with 0) becomes
      `escape(bindings[N-1])`, or stays as it is when there is no such
      binding. */
  function RewriteTemplate(sql: string, bindings: seq<Value>, escape: Value -> string): string
    decreases |sql|
  {
    if sql == [] then ""
    else if |sql| >= 2 && sql[0] == '$' && '1' <= sql[1] <= '9' then
      var d := DigitRun(sql[1..]);
      Substitute(d, bindings, escape) + RewriteTemplate(sql[1 + |d|..], bindings, escape)
    else [sql[0]] + RewriteTemplate(sql[1..], bindings, escape)
  }

  /** What the callback returns for the reference `$d`. */
  function Substitute(d: string, bindings: seq<Value>, escape: Value -> string): string
    requires |d| >= 1 && AllDigits(d) && d[0] != '0'
  {
    LeadingDigitPositive(d);
    var idx := DigitsValue(d) - 1;
    if idx >= |bindings| then "$" + d else escape(bindings[idx])
  }

  /** With no bindings every reference is out of range, so the SQL is kept. */
  lemma {:induction false} RewriteWithoutBindings(sql: string, escape: Value -> string)
    ensures RewriteTemplate(sql, [], escape) == sql
    decreases |sql|
  {
    if sql == [] {
    } else if |sql| >= 2 && sql[0] == '$' && '1' <= sql[1] <= '9' {
      var d := DigitRun(sql[1..]);
      var rest := sql[1 + |d|..];
      KeptReference(sql, escape);
      RewriteWithoutBindings(rest, escape);
      SplitAfterReference(sql, d);
    } else {
      RewriteAtPlain(sql, [], escape);
      RewriteWithoutBindings(sql[1..], escape);
      assert sql == [sql[0]] + sql[1..];
    }
  }

  /** Without bindings a reference is written back as it was. */
  lemma KeptReference(sql: string, escape: Value -> string)
    requires |sql| >= 2 && sql[0] == '$' && '1' <= sql[1] <= '9'
    ensures var d := DigitRun(sql[1..]);
            RewriteTemplate(sql, [], escape) == "$" + d + RewriteTemplate(sql[1 + |d|..], [], escape)
  {
    var d := DigitRun(sql[1..]);
    RewriteAtDollar(sql, [], escape);
    LeadingDigitPositive(d);
  }

  lemma SplitAfterReference(sql: string, d: string)
    requires |sql| >= 1 + |d| && sql[0] == '$' && d == sql[1..][..|d|]
    ensures sql == "$" + d + sql[1 + |d|..]
  {
    assert sql[1..][..|d|] == sql[1..1 + |d|];
    assert sql == [sql[0]] + sql[1..1 + |d|] + sql[1 + |d|..];
  }

  /** Text without `$` passes through unchanged, in front of anything. */
  lemma {:induction false} RewriteSkipsPlainText(a: string, rest: string, bindings: seq<Value>, escape: Value -> string)
    requires '$' !in a
    ensures RewriteTemplate(a + rest, bindings, escape) == a + RewriteTemplate(rest, bindings, escape)
    decreases |a|
  {
    if a == [] {
      assert a + rest == rest;
    } else {
      var s := a + rest;
      var tail := RewriteTemplate(rest, bindings, escape);
      assert s[0] == a[0] && a[0] != '$';
      assert s[1..] == a[1..] + rest;
      RewriteAtPlain(s, bindings, escape);
      RewriteSkipsPlainText(a[1..], rest, bindings, escape);
      assert RewriteTemplate(s, bindings, escape) == [a[0]] + (a[1..] + tail);
      assert [a[0]] + (a[1..] + tail) == ([a[0]] + a[1..]) + tail;
      assert [a[0]] + a[1..] == a;
    }
  }

  /** One step of the rewrite at a character that starts no reference. */
  lemma RewriteAtPlain(sql: string, bindings: seq<Value>, escape: Value -> string)
    requires sql != [] && !(|sql| >= 2 && sql[0] == '$' && '1' <= sql[1] <= '9')
    ensures RewriteTemplate(sql, bindings, escape) == [sql[0]] + RewriteTemplate(sql[1..], bindings, escape)
  {
  }

  lemma {:induction false} DigitRunPrefix(d: string, b: string)
    requires AllDigits(d)
    requires b == [] || !IsDigit(b[0])
    ensures DigitRun(d + b) == d
    decreases |d|
  {
    if d != [] {
      assert (d + b)[1..] == d[1..] + b;
      DigitRunPrefix(d[1..], b);
    } else {
      assert d + b == b;
    }
  }

  /** One step of the rewrite at a `$` followed by a non-zero digit. */
  lemma RewriteAtDollar(sql: string, bindings: seq<Value>, escape: Value -> string)
    requires |sql| >= 2 && sql[0] == '$' && '1' <= sql[1] <= '9'
    ensures var d := DigitRun(sql[1..]);
            |d| >= 1 && d[0] == sql[1] &&
            RewriteTemplate(sql, bindings, escape)
            == Substitute(d, bindings, escape) + RewriteTemplate(sql[1 + |d|..], bindings, escape)
  {
  }

  /** `$d` followed by text not starting with a digit: the digit run read
      after the `$` is `d`, and the text after it is what follows. */
  lemma ReferenceParts(d: string, b: string)
    requires AllDigits(d)
    requires b == [] || !IsDigit(b[0])
    ensures var s := ['$'] + (d + b);
            DigitRun(s[1..]) == d && s[1 + |d|..] == b
  {
    var s := ['$'] + (d + b);
    assert s[1..] == d + b;
    DigitRunPrefix(d, b);
  }

  /** A reference `$d`, `d` a digit run not starting with 0 and not followed
      by a digit, is rewritten as a whole. */
  lemma RewriteReferenceHead(d: string, b: string, bindings: seq<Value>, escape: Value -> string)
    requires |d| >= 1 && AllDigits(d) && d[0] != '0'
    requires b == [] || !IsDigit(b[0])
    ensures DigitsValue(d) >= 1
    ensures RewriteTemplate(['$'] + (d + b), bindings, escape)
            == (if DigitsValue(d) <= |bindings| then escape(bindings[DigitsValue(d) - 1]) else "$" + d)
               + RewriteTemplate(b, bindings, escape)
  {
    ReferenceParts(d, b);
    LeadingDigitPositive(d);
    RewriteAtDollar(['$'] + (d + b), bindings, escape);
  }

  /** A rendered index `$n` in front of text without `$` that does not start
      with a digit. */
  lemma RewriteRenderedReference(n: nat, b: string, bindings: seq<Value>, escape: Value -> string)
    requires n >= 1 && '$' !in b
    requires b == [] || !IsDigit(b[0])
    ensures RewriteTemplate(['$'] + (NatToString(n) + b), bindings, escape)
            == (if n <= |bindings| then escape(bindings[n - 1]) else "$" + NatToString(n)) + b
  {
    NatToStringRoundTrip(n);
    RewriteReferenceHead(NatToString(n), b, bindings, escape);
    RewriteSkipsPlainText(b, "", bindings, escape);
    assert b + "" == b;
  }

  lemma ReferenceShape(a: string, d: string, b: string, rep: string)
    ensures a + "$" + d + b == a + (['$'] + (d + b))
    ensures a + (rep + b) == a + rep + b
  {
  }

  /** One reference `$n` between text without `$`, not followed by a digit,
      becomes the escaped binding `n-1`, or stays when there are fewer than
      `n` bindings. */
  lemma RewriteOneReference(a: string, n: nat, b: string, bindings: seq<Value>, escape: Value -> string)
    requires n >= 1 && '$' !in a && '$' !in b
    requires b == [] || !IsDigit(b[0])
    ensures RewriteTemplate(a + "$" + NatToString(n) + b, bindings, escape)
            == a + (if n <= |bindings| then escape(bindings[n - 1]) else "$" + NatToString(n)) + b
  {
    var rep := if n <= |bindings| then escape(bindings[n - 1]) else "$" + NatToString(n);
    ReferenceShape(a, NatToString(n), b, rep);
    RewriteSkipsPlainText(a, ['$'] + (NatToString(n) + b), bindings, escape);
    RewriteRenderedReference(n, b, bindings, escape);
  }
}
