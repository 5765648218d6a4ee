/** lib/compile-statement.js: what happens to the SQL builder's output before
    it is sent. A builder error is mapped to `malformed` or rethrown; then,
    step by step, collation is forced on wildcard bindings, a sort clause is
    spliced in front of `offset`, an insert asks for its identity, and the
    caller's meta is flagged as using question-mark placeholders. The SQL
    builder itself is an input (`BuilderOutcome`). */
module StatementCompiler {
  import opened JsText
  import opened JsValue
  import opened ParamBinder

  /** What `SQLBuilder.generate(statement)` gives: the SQL and its bindings
      (which may be missing), or the error it throws, with its `code`. */
  datatype BuilderOutcome = Built(sql: string, bindings: Option<seq<Value>>) | BuildError(code: Option<string>)

  /** How compileStatement ends: the success exit, `Error('malformed')`, the
      builder's own error rethrown, or a TypeError from the collation loop. */
  datatype CompileExit =
    | Compiled(nativeQuery: string, valuesToEscape: seq<Value>)
    | Malformed
    | Rethrown(code: string)
    | Errored

  /** The caller's `meta` object; compileStatement sets the flag on it. */
  class Meta {
    var collate: Option<string>
    var sortQuery: Option<string>
    var isUsingQuestionMarks: bool

    constructor (collate: Option<string>, sortQuery: Option<string>)
      ensures this.collate == collate && this.sortQuery == sortQuery && !isUsingQuestionMarks
    {
      this.collate := collate;
      this.sortQuery := sortQuery;
      isUsingQuestionMarks := false;
    }
  }

  /** `!err.code || err.code === 'error'`. */
  predicate MalformedCode(code: Option<string>)
  {
    code.None? || code.value == "" || code.value == "error"
  }

  /** The error a builder failure turns into. */
  function BuildFailure(code: Option<string>): (r: CompileExit)
    ensures r == Malformed <==> MalformedCode(code)
    ensures r.Rethrown? <==> !MalformedCode(code)
    ensures r.Rethrown? ==> Some(r.code) == code
  {
    if MalformedCode(code) then Malformed else Rethrown(code.value)
  }

  // ---------------------------------------------------------------------
  // Forced collation

  /** `bind[0] === '%' || bind[bind.length - 1] === '%' && sql.includes('@p' + index)`
      for a binding that is not null or undefined. Only a string can have a
      `'%'` character at an index. */
  predicate WantsCollation(sql: string, index: nat, bind: Value)
  {
    bind.Str? && bind.s != [] && (bind.s[0] == '%' || (bind.s[|bind.s| - 1] == '%' && Includes(sql, Placeholder(index))))
  }

  /** One pass of the collation loop: a null or undefined binding makes
      `bind[0]` throw (None); a wildcard binding gets ` collate <c>` after
      the first occurrence of its placeholder. */
  function CollateStep(sql: string, index: nat, bind: Value, c: string): (r: Option<string>)
    ensures r.None? <==> bind.Null? || bind.Undefined?
    ensures r.Some? && !WantsCollation(sql, index, bind) ==> r.value == sql
  {
    if bind.Null? || bind.Undefined? then None
    else if WantsCollation(sql, index, bind) then
      Some(ReplaceFirst(sql, Placeholder(index), Placeholder(index) + CollateWords + c))
    else Some(sql)
  }

  const CollateWords := " collate "

  lemma CollateWordsNoDollar()
    ensures NoDollar(CollateWords)
  {
  }

  /** A placeholder is `@p` and digits, so it holds no `$`. */
  lemma PlaceholderNoDollar(index: nat)
    ensures NoDollar(Placeholder(index))
  {
    var p := Placeholder(index);
    forall k | 0 <= k < |p| ensures p[k] != '$' {
      if k >= 2 {
        assert p[k] == NatToString(index)[k - 2];
      }
    }
  }

  /** A wildcard binding whose placeholder is in the SQL gets ` collate `
      and the expanded collation right after the placeholder's first
      occurrence, and nothing else changes; a collation without `$` is
      inserted as it is. When the placeholder is absent the SQL is kept. */
  lemma CollateInsertsAfterPlaceholder(sql: string, index: nat, bind: Value, c: string)
    requires WantsCollation(sql, index, bind)
    ensures Includes(sql, Placeholder(index)) ==>
              var p := Placeholder(index);
              var k := IndexOf(sql, p) + |p|;
              |p| <= k <= |sql|
              && CollateStep(sql, index, bind, c)
                 == Some(sql[..k] + CollateWords + ExpandReplacement(c, p, sql[..k - |p|], sql[k..]) + sql[k..])
              && (NoDollar(c) ==> CollateStep(sql, index, bind, c) == Some(sql[..k] + CollateWords + c + sql[k..]))
    ensures !Includes(sql, Placeholder(index)) ==> CollateStep(sql, index, bind, c) == Some(sql)
  {
    var p := Placeholder(index);
    assert CollateStep(sql, index, bind, c) == Some(ReplaceFirst(sql, p, p + CollateWords + c));
    if Includes(sql, p) {
      PlaceholderNoDollar(index);
      CollateWordsNoDollar();
      ReplaceFirstInsertsWords(sql, p, CollateWords, c);
    }
  }

  /** A collation holding `$&` repeats the placeholder instead of naming a
      collation: ` collate $&` after `@p0` becomes ` collate @p0`. */
  lemma CollationPatternRepeatsPlaceholder(before: string, after: string)
    ensures ExpandReplacement("$&", Placeholder(0), before, after) == "@p0"
  {
    assert NatToString(0) == "0";
    assert "$&"[2..] == [];
  }

  /** The collation loop over the first `n` bindings, as a specification. */
  function CollateUpTo(sql: string, bindings: seq<Value>, c: string, n: nat): Option<string>
    requires n <= |bindings|
  {
    if n == 0 then Some(sql)
    else
      match CollateUpTo(sql, bindings, c, n - 1)
      case None => None
      case Some(s) => CollateStep(s, n - 1, bindings[n - 1], c)
  }

  /** `for (const [index, bind] of bindings.entries())`, reassigning the SQL. */
  method ForceCollation(sql: string, bindings: seq<Value>, c: string) returns (r: Option<string>)
    ensures r == CollateUpTo(sql, bindings, c, |bindings|)
  {
    var current := sql;
    for index := 0 to |bindings|
      invariant CollateUpTo(sql, bindings, c, index) == Some(current)
    {
      var bind := bindings[index];
      if bind.Null? || bind.Undefined? {
        CollateStopsForGood(sql, bindings, c, index + 1, |bindings|);
        return None;
      }
      if WantsCollation(current, index, bind) {
        current := ReplaceFirst(current, Placeholder(index), Placeholder(index) + CollateWords + c);
      }
    }
    return Some(current);
  }

  lemma {:induction false} CollateStopsForGood(sql: string, bindings: seq<Value>, c: string, n: nat, m: nat)
    requires n <= m <= |bindings|
    requires CollateUpTo(sql, bindings, c, n).None?
    ensures CollateUpTo(sql, bindings, c, m).None?
    decreases m - n
  {
    if n < m {
      CollateStopsForGood(sql, bindings, c, n + 1, m);
    }
  }

  /** The loop throws exactly when some binding is null or undefined. */
  lemma {:induction false} CollateFailsOnNullish(sql: string, bindings: seq<Value>, c: string, n: nat)
    requires n <= |bindings|
    ensures CollateUpTo(sql, bindings, c, n).None? <==>
              exists k :: 0 <= k < n && (bindings[k].Null? || bindings[k].Undefined?)
  {
    if n > 0 {
      CollateFailsOnNullish(sql, bindings, c, n - 1);
      var last := bindings[n - 1];
      if last.Null? || last.Undefined? {
        assert 0 <= n - 1 < n && (bindings[n - 1].Null? || bindings[n - 1].Undefined?);
      } else if CollateUpTo(sql, bindings, c, n - 1).None? {
        var k :| 0 <= k < n - 1 && (bindings[k].Null? || bindings[k].Undefined?);
        assert 0 <= k < n;
      } else {
        forall k | 0 <= k < n
          ensures !bindings[k].Null? && !bindings[k].Undefined?
        {
          if k < n - 1 {
            assert !(0 <= k < n - 1 && (bindings[k].Null? || bindings[k].Undefined?));
          }
        }
      }
    }
  }

  /** Bindings that are neither nullish nor strings with a `%` at either end
      leave the SQL as it is. */
  lemma {:induction false} CollateWithoutWildcards(sql: string, bindings: seq<Value>, c: string, n: nat)
    requires n <= |bindings|
    requires forall k :: 0 <= k < |bindings| ==> !bindings[k].Null? && !bindings[k].Undefined?
    requires forall k :: 0 <= k < |bindings| && bindings[k].Str? && bindings[k].s != [] ==>
               bindings[k].s[0] != '%' && bindings[k].s[|bindings[k].s| - 1] != '%'
    ensures CollateUpTo(sql, bindings, c, n) == Some(sql)
  {
    if n > 0 {
      CollateWithoutWildcards(sql, bindings, c, n - 1);
    }
  }

  // ---------------------------------------------------------------------
  // Sort splice and insert identity

  /** A sort query is used when it is set and its upper-cased text contains
      "ORDER BY". */
  predicate UsesSort(sortQuery: Option<string>)
  {
    TruthyText(sortQuery) && Includes(ToUpper(sortQuery.value), "ORDER BY")
  }

  /** `[sql.substr(0, k), sortQuery, sql.substr(k, sql.length)].join(' ')`
      with `k` the first `offset`, or `sql + ' ' + sortQuery` without one. */
  function SortedSql(sql: string, sortQuery: Option<string>): (r: string)
    ensures !UsesSort(sortQuery) ==> r == sql
    ensures UsesSort(sortQuery) && !Includes(sql, "offset") ==> r == sql + " " + sortQuery.value
    ensures UsesSort(sortQuery) && Includes(sql, "offset") ==>
              var k := IndexOf(sql, "offset");
              r == sql[..k] + " " + sortQuery.value + " " + sql[k..]
  {
    if !UsesSort(sortQuery) then sql
    else if Includes(sql, "offset") then
      var k := IndexOf(sql, "offset");
      Substr(sql, 0, k) + " " + sortQuery.value + " " + Substr(sql, k, |sql|)
    else sql + " " + sortQuery.value
  }

  /** The sort clause lands in front of the paging clause: when the sort query
      itself has no `offset`, the first `offset` of the result is the one of
      the SQL, moved right by the sort query and its two spaces, and the text
      before the sort query is the SQL's text before `offset`. */
  lemma SortLandsBeforeOffset(sql: string, sortQuery: string)
    requires UsesSort(Some(sortQuery)) && Includes(sql, "offset") && !Includes(sortQuery, "offset")
    ensures var k := IndexOf(sql, "offset");
            var r := SortedSql(sql, Some(sortQuery));
            IndexOf(r, "offset") == k + |sortQuery| + 2 && r[..k] == sql[..k]
  {
    var k := IndexOf(sql, "offset");
    var r := SortedSql(sql, Some(sortQuery));
    var t := k + |sortQuery| + 2;
    assert r == sql[..k] + " " + sortQuery + " " + sql[k..];
    assert OccursAt(r, "offset", t) by {
      assert r[t..] == sql[k..];
      assert r[t..t + 6] == sql[k..k + 6];
    }
    NoOffsetInsideSplice(sql, sortQuery, k, r);
  }

  /** No `offset` starts in the spliced text before the SQL's own first one:
      it would have to lie in the SQL before that one, in the sort query, or
      across one of the two spaces. */
  lemma NoOffsetInsideSplice(sql: string, sortQuery: string, k: nat, r: string)
    requires Includes(sql, "offset") && k == IndexOf(sql, "offset") && !Includes(sortQuery, "offset")
    requires r == sql[..k] + " " + sortQuery + " " + sql[k..]
    ensures forall p: nat :: p < k + |sortQuery| + 2 ==> !OccursAt(r, "offset", p)
  {
    forall p: nat | p < k + |sortQuery| + 2
      ensures !OccursAt(r, "offset", p)
    {
      if p + 6 <= |r| {
        if p + 6 <= k {
          NoOffsetBeforeSplice(sql, sortQuery, k, r, p);
        } else if p + 6 <= k + 1 + |sortQuery| && k < p {
          NoOffsetInSortQuery(sql, sortQuery, k, r, p);
        } else {
          NoOffsetAcrossSpace(sql, sortQuery, k, r, p);
        }
      }
    }
  }

  lemma NoOffsetBeforeSplice(sql: string, sortQuery: string, k: nat, r: string, p: nat)
    requires k == IndexOf(sql, "offset")
    requires r == sql[..k] + " " + sortQuery + " " + sql[k..]
    requires p + 6 <= k
    ensures !OccursAt(r, "offset", p)
  {
    assert r[..k] == sql[..k];
    assert r[p..p + 6] == sql[p..p + 6];
    assert !OccursAt(sql, "offset", p);
  }

  lemma NoOffsetInSortQuery(sql: string, sortQuery: string, k: nat, r: string, p: nat)
    requires k <= |sql| && !Includes(sortQuery, "offset")
    requires r == sql[..k] + " " + sortQuery + " " + sql[k..]
    requires k < p && p + 6 <= k + 1 + |sortQuery|
    ensures !OccursAt(r, "offset", p)
  {
    assert r[k + 1..k + 1 + |sortQuery|] == sortQuery;
    assert r[p..p + 6] == r[k + 1..k + 1 + |sortQuery|][p - k - 1..p - k - 1 + 6];
    NotIncludedNowhere(sortQuery, "offset", p - k - 1);
  }

  /** A window that covers one of the two spaces holds a space, and
      `offset` has none. */
  lemma NoOffsetAcrossSpace(sql: string, sortQuery: string, k: nat, r: string, p: nat)
    requires k <= |sql|
    requires r == sql[..k] + " " + sortQuery + " " + sql[k..]
    requires p + 6 <= |r| && p < k + |sortQuery| + 2
    requires k < p + 6 && (p <= k || k + 1 + |sortQuery| < p + 6)
    ensures !OccursAt(r, "offset", p)
  {
    var q := if p <= k then k else k + 1 + |sortQuery|;
    assert r[q] == ' ';
    assert r[p..p + 6][q - p] == ' ';
  }

  /** The text an insert's SQL gets to return the new row's id. */
  const InsertIdSuffix := " " + "SELECT" + " SCOPE_IDENTITY() as insertId"

  /** An insert whose upper-cased SQL has neither `SELECT` nor `OUTPUT`. */
  predicate NeedsInsertId(sql: string, isInsert: bool)
  {
    isInsert && !Includes(ToUpper(sql), "SELECT") && !Includes(ToUpper(sql), "OUTPUT")
  }

  function WithInsertId(sql: string, isInsert: bool): (r: string)
  {
    if NeedsInsertId(sql, isInsert) then sql + InsertIdSuffix else sql
  }

  /** The SQL changes exactly for an insert that selects nothing, and then by
      the identity suffix alone. */
  lemma InsertIdOnlyForPlainInserts(sql: string, isInsert: bool)
    ensures WithInsertId(sql, isInsert) != sql <==> NeedsInsertId(sql, isInsert)
    ensures WithInsertId(sql, isInsert)[..|sql|] == sql
    ensures NeedsInsertId(sql, isInsert) ==> WithInsertId(sql, isInsert)[|sql|..] == InsertIdSuffix
  {
  }

  /** Asking once is enough: the suffix itself contains `SELECT`, so the
      rewrite does not apply twice. */
  lemma InsertIdIdempotent(sql: string, isInsert: bool)
    ensures WithInsertId(WithInsertId(sql, isInsert), isInsert) == WithInsertId(sql, isInsert)
  {
    if NeedsInsertId(sql, isInsert) {
      SuffixSelects();
      ToUpperConcat(sql, InsertIdSuffix);
      IncludesInConcat(ToUpper(sql), ToUpper(InsertIdSuffix), "SELECT");
    }
  }

  /** The identity suffix, upper-cased, contains `SELECT`. */
  lemma SuffixSelects()
    ensures Includes(ToUpper(InsertIdSuffix), "SELECT")
  {
    var head, word, tail := " ", "SELECT", " SCOPE_IDENTITY() as insertId";
    assert InsertIdSuffix == head + word + tail;
    ToUpperConcat(head + word, tail);
    ToUpperConcat(head, word);
    assert ToUpper(word) == word by {
      forall k | 0 <= k < 6
        ensures ToUpper(word)[k] == word[k]
      {
        assert k == 0 || k == 1 || k == 2 || k == 3 || k == 4 || k == 5;
      }
    }
    assert OccursAt(word, word, 0) by {
      assert word[0..6] == word;
    }
    IncludesAt(word, word, 0);
    IncludesInConcat(ToUpper(head), word, word);
    IncludesInConcat(ToUpper(head) + word, ToUpper(tail), word);
  }

  // ---------------------------------------------------------------------
  // The whole statement

  /** What the caller's meta holds when compileStatement reads it. */
  datatype MetaView = MetaView(collate: Option<string>, sortQuery: Option<string>)

  /** compileStatement as a specification; a missing meta reads as `{}`. */
  function CompileSpec(isInsert: bool, built: BuilderOutcome, meta: Option<MetaView>): CompileExit
  {
    match built
    case BuildError(code) => BuildFailure(code)
    case Built(sql, bindings) =>
      var m := if meta.Some? then meta.value else MetaView(None, None);
      var collated :=
        if !TruthyText(m.collate) then Some(sql)
        else if bindings.None? then None
        else CollateUpTo(sql, bindings.value, m.collate.value, |bindings.value|);
      match collated
      case None => Errored
      case Some(s) =>
        Compiled(WithInsertId(SortedSql(s, m.sortQuery), isInsert), if bindings.Some? then bindings.value else [])
  }

  /** Without meta, a statement that is not an insert is sent exactly as the
      builder wrote it, with its bindings (or none). */
  lemma CompileWithoutMeta(sql: string, bindings: Option<seq<Value>>)
    ensures CompileSpec(false, Built(sql, bindings), None)
            == Compiled(sql, if bindings.Some? then bindings.value else [])
  {
  }

  /** The exit is an error exactly when the builder failed, or when collation
      is forced and the bindings are missing or hold a null or undefined
      value; the values to escape are always the builder's bindings. */
  lemma CompileExits(isInsert: bool, built: BuilderOutcome, meta: Option<MetaView>)
    ensures var r := CompileSpec(isInsert, built, meta);
            var m := if meta.Some? then meta.value else MetaView(None, None);
            (r.Compiled? <==>
               built.Built? &&
               (TruthyText(m.collate) ==>
                  built.bindings.Some? &&
                  forall k :: 0 <= k < |built.bindings.value| ==>
                    !built.bindings.value[k].Null? && !built.bindings.value[k].Undefined?))
            && (r.Compiled? ==> r.valuesToEscape == (if built.bindings.Some? then built.bindings.value else []))
            && (built.BuildError? ==> r == BuildFailure(built.code))
  {
    if built.Built? && built.bindings.Some? {
      var m := if meta.Some? then meta.value else MetaView(None, None);
      if TruthyText(m.collate) {
        CollateFailsOnNullish(built.sql, built.bindings.value, m.collate.value, |built.bindings.value|);
      }
    }
  }

  /** compileStatement over the caller's meta object: the SQL is rewritten
      step by step and the flag is set on the meta that is handed back (a
      new one when none was given). A failure leaves the meta untouched. */
  method CompileStatement(isInsert: bool, built: BuilderOutcome, meta: Meta?) returns (exit: CompileExit, outMeta: Meta?)
    modifies meta
    ensures exit == CompileSpec(isInsert, built,
                                if meta == null then None else Some(MetaView(old(meta.collate), old(meta.sortQuery))))
    ensures meta != null ==> meta.collate == old(meta.collate) && meta.sortQuery == old(meta.sortQuery)
    ensures exit.Compiled? ==> outMeta != null && outMeta.isUsingQuestionMarks
    ensures exit.Compiled? && meta != null ==> outMeta == meta
    ensures exit.Compiled? && meta == null ==> fresh(outMeta) && outMeta.collate.None? && outMeta.sortQuery.None?
    ensures !exit.Compiled? && meta != null ==> meta.isUsingQuestionMarks == old(meta.isUsingQuestionMarks)
  {
    if built.BuildError? {
      return BuildFailure(built.code), null;
    }
    var sql := built.sql;
    var m: Meta;
    if meta == null {
      m := new Meta(None, None);
    } else {
      m := meta;
    }
    if TruthyText(m.collate) {
      if built.bindings.None? {
        return Errored, null;
      }
      var collated := ForceCollation(sql, built.bindings.value, m.collate.value);
      if collated.None? {
        return Errored, null;
      }
      sql := collated.value;
    }
    sql := SortedSql(sql, m.sortQuery);
    m.isUsingQuestionMarks := true;
    if NeedsInsertId(sql, isInsert) {
      sql := sql + InsertIdSuffix;
    }
    var values := if built.bindings.Some? then built.bindings.value else [];
    return Compiled(sql, values), m;
  }
}
