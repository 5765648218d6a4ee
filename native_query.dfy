/** lib/send-native-query.js: the `$N` template rewrite, the inline
    parameter binder (which queries the column type per column and writes
    the stripped xml value back into the caller's values), the
    normalisation of the driver's result, and the exits around them. The
    prepare/execute/unprepare round trip is an input (`DriverRun`). */
module NativeQuery {
  import opened JsText
  import opened JsValue
  import opened ParamBinder
  import opened TemplateRewrite
  import opened ConnectionCheck

  // ---------------------------------------------------------------------
  // The inline binder

  /** What the per-column type query returns as its first row for a table
      and a column; None when there is no row (the binder then throws). */
  type RowLookup = (string, string) -> Option<ColumnMeta>

  /** The table name the type query uses: when the name holds a space, the
      alias after it is dropped (`split(' ')[0]`); a name without a space is
      what that split gives back unchanged. */
  function QueryTable(tableName: string): (r: string)
    ensures ' ' !in r
    ensures |r| <= |tableName| && r == tableName[..|r|]
    ensures |r| < |tableName| ==> tableName[|r|] == ' '
    ensures ' ' !in tableName ==> r == tableName
  {
    FirstSegment(tableName, ' ')
  }

  /** The inline type switch: like get-params but with no 1000 default for
      `varchar` (a NULL maximum adds as 0); xml strips the prologue and a
      Buffer is `VarBinary(MAX)`. None when the xml case throws. */
  function InlineType(meta: ColumnMeta, current: Value, specials: nat): (r: Option<Typed>)
    ensures r.Some? ==> r.value.meta == meta
    ensures r.Some? && ToLower(meta.dataType) == "varchar" ==>
              r.value.wire == BufferOverride(VarChar(Some(PlusOrZero(meta.maxLength, specials))), current)
    ensures ToLower(meta.dataType) != "xml" ==> r.Some? && r.value.value == current
    ensures ToLower(meta.dataType) == "xml" ==> r.Some? == StripXmlPrologue(current).Some?
    ensures r.Some? && r.value.value != current ==>
              current.Str? && Includes(current.s, "<?xml") && Some(r.value.value) == StripXmlPrologue(current)
              && r.value.wire == Xml
    ensures current.Bytes? && r.Some? ==> r.value.wire == VarBinaryMax
  {
    if ToLower(meta.dataType) == "xml" then
      match StripXmlPrologue(current)
      case None => None
      case Some(v) => Some(Typed(BufferOverride(Xml, v), meta, v))
    else
      Some(Typed(BufferOverride(WireTypeFor(meta, PlusOrZero(meta.maxLength, specials)), current), meta, current))
  }

  /** The inline length check as written: it has no exemption for a -1
      (MAX) maximum. */
  predicate InlineRejectsAsWritten(meta: ColumnMeta, v: Value, specials: nat)
  {
    TruthyInt(meta.maxLength) && Truthy(v) && meta.dataType != "xml"
    && LengthOf(v).Some? && LengthOf(v).value > meta.maxLength.value + specials
  }

  /** As written, every non-empty string bound to a MAX column is refused
      (the authorised length reported is -1 plus the `%` count). */
  lemma InlineRejectsMaxColumns(name: string, s: string)
    requires s != ""
    ensures InlineRejectsAsWritten(ColumnMeta(name, "nvarchar", None, None, Some(-1)), Str(s), CountChar(s, '%'))
    ensures !RejectsLength(ColumnMeta(name, "nvarchar", None, None, Some(-1)), Str(s), CountChar(s, '%'))
  {
  }

  /** With the exemption, a value is refused only for a real, exceeded
      maximum; the two checks agree on every column that is not MAX. */
  lemma CorrectedCheckOnlyDiffersOnMax(meta: ColumnMeta, v: Value, specials: nat)
    ensures RejectsLength(meta, v, specials) ==> InlineRejectsAsWritten(meta, v, specials)
    ensures meta.maxLength != Some(-1) ==> (RejectsLength(meta, v, specials) <==> InlineRejectsAsWritten(meta, v, specials))
    ensures meta.maxLength == Some(-1) ==> !RejectsLength(meta, v, specials)
  {
  }

  /** The loop state: what is bound so far and the caller's values array,
      which the xml case writes to. */
  datatype InlineState = InlineState(bound: BindState, vals: seq<Value>)

  datatype InlineStepResult = Continue(st: InlineState) | Halt(error: BindError, vals: seq<Value>)

  /** One pass of the inline loop: the pagination check, then, when the SQL
      shows `@p<i>`, the type query, the length check, the type switch, the
      write-back and the binding (there is no null-check skip here). */
  function InlineStep(sql: string, table: string, rowFor: RowLookup, st: InlineState, rawColumn: string): InlineStepResult
  {
    var column := LastSegment(rawColumn, '.');
    var b := BindPagination(sql, st.vals, st.bound);
    if |st.vals| >= b.i && Includes(sql, Placeholder(b.i)) then InlineTypeAndBind(table, column, rowFor, b, st.vals)
    else Continue(InlineState(b, st.vals))
  }

  /** The type query, the length check, the type switch, the write-back and
      the binding of `@p<i>`. */
  function InlineTypeAndBind(table: string, column: string, rowFor: RowLookup, b: BindState, vals: seq<Value>): InlineStepResult
  {
    var i := b.i;
    match rowFor(QueryTable(table), column)
    case None => Halt(Thrown, vals)
    case Some(meta) =>
      var current := ValueAt(vals, i);
      var specials := PercentCount(current);
      if InlineRejectsAsWritten(meta, current, specials) then
        Halt(ValueTooLarge(column, current, meta.maxLength.value + specials), vals)
      else
        match InlineType(meta, current, specials)
        case None => Halt(Thrown, vals)
        case Some(t) =>
          var vals' := if i < |vals| then vals[i := t.value] else vals;
          Continue(InlineState(Declare(b, t.wire, t.value), vals'))
  }

  /** As written, the inline binder stops on a non-empty string for a MAX
      column, reporting -1 plus the `%` count as the authorised length,
      where the get-params binder would bind it. */
  lemma InlineBinderRefusesMaxColumns(table: string, column: string, rowFor: RowLookup, b: BindState,
                                      vals: seq<Value>, s: string)
    requires b.i < |vals| && vals[b.i] == Str(s) && s != ""
    requires rowFor(QueryTable(table), column).Some?
    requires rowFor(QueryTable(table), column).value.maxLength == Some(-1)
    requires rowFor(QueryTable(table), column).value.dataType != "xml"
    ensures InlineTypeAndBind(table, column, rowFor, b, vals)
            == Halt(ValueTooLarge(column, Str(s), -1 + CountChar(s, '%')), vals)
    ensures !RejectsLength(rowFor(QueryTable(table), column).value, Str(s), CountChar(s, '%'))
  {
    assert ValueAt(vals, b.i) == Str(s);
  }

  function RunInline(sql: string, table: string, rowFor: RowLookup, init: InlineState, columns: seq<string>): InlineStepResult
    decreases |columns|
  {
    if columns == [] then Continue(init)
    else
      match RunInline(sql, table, rowFor, init, columns[..|columns| - 1])
      case Halt(e, vals) => Halt(e, vals)
      case Continue(st) => InlineStep(sql, table, rowFor, st, columns[|columns| - 1])
  }

  /** The outcome of the inline binder and the caller's values afterwards. */
  datatype InlineRun = InlineRun(outcome: BindOutcome, vals: seq<Value>)

  /** The inline binder, as a specification; `Invalid` stands for a thrown
      exception. */
  function InlineBindSpec(values: seq<Value>, statement: Option<Statement>, sql: string, rowFor: RowLookup): InlineRun
  {
    if |values| == 0 then InlineRun(Success([], map[]), values)
    else
      var init := InlineState(InitState([]), values);
      var loop :=
        if RunsColumnLoop(statement)
        then RunInline(sql, statement.value.tableName, rowFor, init, statement.value.columns.value)
        else Continue(init);
      match loop
      case Halt(e, vals) => InlineRun(ErrorOutcome(e), vals)
      case Continue(st) =>
        if statement.None? || statement.value.columns.None? then InlineRun(Invalid, st.vals)
        else
          var n := |statement.value.columns.value|;
          var fin := if |st.vals| > n then Trailing(MarkerAt(sql), st.vals, n, |st.vals|, st.bound) else st.bound;
          InlineRun(Success(fin.decls, fin.params), st.vals)
  }

  /** The inline binder over the caller's values array. */
  method InlineBind(sql: string, statement: Option<Statement>, rowFor: RowLookup, values: array<Value>)
    returns (out: BindOutcome)
    modifies values
    ensures InlineBindSpec(old(values[..]), statement, sql, rowFor) == InlineRun(out, values[..])
  {
    if values.Length == 0 {
      return Success([], map[]);
    }
    ghost var init := InlineState(InitState([]), values[..]);
    var bound := InitState([]);
    if RunsColumnLoop(statement) {
      var columns := statement.value.columns.value;
      var table := statement.value.tableName;
      for n := 0 to |columns|
        invariant values.Length == |init.vals|
        invariant RunInline(sql, table, rowFor, init, columns[..n]) == Continue(InlineState(bound, values[..]))
      {
        assert columns[..n + 1][..n] == columns[..n];
        var step := InlineColumn(sql, table, rowFor, values, bound, columns[n]);
        if step.Stop? {
          RunInlineStopsForGood(sql, table, rowFor, init, columns, n + 1);
          return ErrorOutcome(step.error);
        }
        bound := step.st;
      }
      assert columns[..|columns|] == columns;
    }
    if statement.None? || statement.value.columns.None? {
      return Invalid;
    }
    var count := |statement.value.columns.value|;
    if values.Length > count {
      var decls, params := BindTrailing(sql, values[..], count, bound);
      bound := bound.(decls := decls, params := params);
    }
    return Success(bound.decls, bound.params);
  }

  /** One pass of the inline loop. */
  method InlineColumn(sql: string, table: string, rowFor: RowLookup, values: array<Value>, before: BindState,
                      rawColumn: string)
    returns (r: StepResult)
    modifies values
    ensures var spec := InlineStep(sql, table, rowFor, InlineState(before, old(values[..])), rawColumn);
            (spec.Continue? ==> r == Next(spec.st.bound) && values[..] == spec.st.vals)
            && (spec.Halt? ==> r == Stop(spec.error) && values[..] == spec.vals)
  {
    var column := LastSegment(rawColumn, '.');
    var b := BindPagination(sql, values[..], before);
    if values.Length >= b.i && Includes(sql, Placeholder(b.i)) {
      r := InlineNewColumn(table, column, rowFor, values, b);
    } else {
      r := Next(b);
    }
  }

  /** The typed part of one pass; the xml case writes the stripped value
      into the caller's array. */
  method InlineNewColumn(table: string, column: string, rowFor: RowLookup, values: array<Value>, b: BindState)
    returns (r: StepResult)
    modifies values
    ensures var spec := InlineTypeAndBind(table, column, rowFor, b, old(values[..]));
            (spec.Continue? ==> r == Next(spec.st.bound) && values[..] == spec.st.vals)
            && (spec.Halt? ==> r == Stop(spec.error) && values[..] == spec.vals)
  {
    var i := b.i;
    var row := rowFor(QueryTable(table), column);
    if row.None? {
      return Stop(Thrown);
    }
    var meta := row.value;
    var current := if i < values.Length then values[i] else Undefined;
    assert current == ValueAt(values[..], i);
    var specials := PercentCount(current);
    if InlineRejectsAsWritten(meta, current, specials) {
      return Stop(ValueTooLarge(column, current, meta.maxLength.value + specials));
    }
    var typed := InlineType(meta, current, specials);
    if typed.None? {
      return Stop(Thrown);
    }
    if i < values.Length {
      values[i] := typed.value.value;
    }
    return Next(Declare(b, typed.value.wire, typed.value.value));
  }

  lemma {:induction false} RunInlineStopsForGood(sql: string, table: string, rowFor: RowLookup, init: InlineState,
                                                 columns: seq<string>, n: nat)
    requires n <= |columns|
    requires RunInline(sql, table, rowFor, init, columns[..n]).Halt?
    ensures RunInline(sql, table, rowFor, init, columns) == RunInline(sql, table, rowFor, init, columns[..n])
    decreases |columns| - n
  {
    if n < |columns| {
      var longer := columns[..n + 1];
      assert longer[..|longer| - 1] == columns[..n];
      assert RunInline(sql, table, rowFor, init, longer) == RunInline(sql, table, rowFor, init, columns[..n]);
      RunInlineStopsForGood(sql, table, rowFor, init, columns, n + 1);
    } else {
      assert columns[..n] == columns;
    }
  }

  // ---------------------------------------------------------------------
  // What the inline loop keeps true

  /** `vals` is `orig` except where an xml value lost its prologue. */
  ghost predicate OnlyXmlStripped(orig: seq<Value>, vals: seq<Value>)
  {
    |vals| == |orig|
    && forall k :: 0 <= k < |orig| && vals[k] != orig[k] ==>
         orig[k].Str? && Includes(orig[k].s, "<?xml") && Some(vals[k]) == StripXmlPrologue(orig[k])
  }

  /** The inline loop binds `@p0 .. @p(i-1)` in order, each to what the
      values array holds at that index now; it has written only below `i`,
      and only xml prologue strips. */
  ghost predicate InlineInvariant(orig: seq<Value>, st: InlineState)
  {
    var b := st.bound;
    |b.decls| == b.i
    && (forall k :: 0 <= k < |b.decls| ==> b.decls[k].index == k)
    && (forall k: nat :: k in b.params <==> k < b.i)
    && (forall k: nat :: k < b.i ==> b.params[k] == ValueAt(st.vals, k))
    && OnlyXmlStripped(orig, st.vals)
    && (forall k :: b.i <= k < |orig| ==> st.vals[k] == orig[k])
  }

  lemma InlineDeclareKeeps(orig: seq<Value>, st: InlineState, wire: WireType, v: Value, vals: seq<Value>)
    requires InlineInvariant(orig, st)
    requires OnlyXmlStripped(orig, vals)
    requires forall k :: 0 <= k < |vals| && k != st.bound.i ==> vals[k] == st.vals[k]
    requires v == ValueAt(vals, st.bound.i)
    ensures InlineInvariant(orig, InlineState(Declare(st.bound, wire, v), vals))
  {
  }

  lemma InlineStepKeeps(sql: string, table: string, rowFor: RowLookup, orig: seq<Value>, st: InlineState, raw: string)
    requires InlineInvariant(orig, st)
    requires InlineStep(sql, table, rowFor, st, raw).Continue?
    ensures InlineInvariant(orig, InlineStep(sql, table, rowFor, st, raw).st)
  {
    InlinePaginationKeeps(sql, orig, st);
    var b := BindPagination(sql, st.vals, st.bound);
    if |st.vals| >= b.i && Includes(sql, Placeholder(b.i)) {
      InlineTypeAndBindKeeps(table, LastSegment(raw, '.'), rowFor, orig, InlineState(b, st.vals));
    }
  }

  lemma InlinePaginationKeeps(sql: string, orig: seq<Value>, st: InlineState)
    requires InlineInvariant(orig, st)
    ensures InlineInvariant(orig, InlineState(BindPagination(sql, st.vals, st.bound), st.vals))
  {
    if Marker(sql, st.bound.i) {
      InlineDeclareKeeps(orig, st, BigInt, ValueAt(st.vals, st.bound.i), st.vals);
    }
  }

  lemma InlineTypeAndBindKeeps(table: string, column: string, rowFor: RowLookup, orig: seq<Value>, st: InlineState)
    requires InlineInvariant(orig, st)
    requires InlineTypeAndBind(table, column, rowFor, st.bound, st.vals).Continue?
    ensures InlineInvariant(orig, InlineTypeAndBind(table, column, rowFor, st.bound, st.vals).st)
  {
    var i := st.bound.i;
    var meta := rowFor(QueryTable(table), column).value;
    var current := ValueAt(st.vals, i);
    var t := InlineType(meta, current, PercentCount(current)).value;
    var vals := if i < |st.vals| then st.vals[i := t.value] else st.vals;
    assert OnlyXmlStripped(orig, vals) by {
      if i < |st.vals| && t.value != current {
        assert current == orig[i];
      }
    }
    InlineDeclareKeeps(orig, st, t.wire, t.value, vals);
  }

  /** A pass that stops leaves the values array as it found it. */
  lemma InlineStepHaltKeepsValues(sql: string, table: string, rowFor: RowLookup, st: InlineState, raw: string)
    ensures InlineStep(sql, table, rowFor, st, raw).Halt? ==> InlineStep(sql, table, rowFor, st, raw).vals == st.vals
  {
    var b := BindPagination(sql, st.vals, st.bound);
    var r := InlineTypeAndBind(table, LastSegment(raw, '.'), rowFor, b, st.vals);
    assert r.Halt? ==> r.vals == st.vals;
  }

  lemma {:induction false} RunInlineKeeps(sql: string, table: string, rowFor: RowLookup, orig: seq<Value>,
                                          columns: seq<string>)
    ensures var r := RunInline(sql, table, rowFor, InlineState(InitState([]), orig), columns);
            (r.Continue? ==> InlineInvariant(orig, r.st)) && (r.Halt? ==> OnlyXmlStripped(orig, r.vals))
    decreases |columns|
  {
    if columns != [] {
      var prefix := columns[..|columns| - 1];
      RunInlineKeeps(sql, table, rowFor, orig, prefix);
      var prev := RunInline(sql, table, rowFor, InlineState(InitState([]), orig), prefix);
      if prev.Continue? {
        var r := InlineStep(sql, table, rowFor, prev.st, columns[|columns| - 1]);
        if r.Continue? {
          InlineStepKeeps(sql, table, rowFor, orig, prev.st, columns[|columns| - 1]);
        } else {
          InlineStepHaltKeepsValues(sql, table, rowFor, prev.st, columns[|columns| - 1]);
        }
      }
    }
  }

  /** Whatever the outcome, the caller's values array changed only where an
      xml value lost its prologue; on success every bound parameter holds
      what the array holds at its index afterwards. */
  lemma InlineWriteBack(values: seq<Value>, statement: Option<Statement>, sql: string, rowFor: RowLookup)
    ensures var run := InlineBindSpec(values, statement, sql, rowFor);
            OnlyXmlStripped(values, run.vals)
            && (run.outcome.Success? ==>
                  forall k :: k in run.outcome.params ==> run.outcome.params[k] == ValueAt(run.vals, k))
  {
    if |values| > 0 {
      var init := InlineState(InitState([]), values);
      var loop := Continue(init);
      if RunsColumnLoop(statement) {
        RunInlineKeeps(sql, statement.value.tableName, rowFor, values, statement.value.columns.value);
        loop := RunInline(sql, statement.value.tableName, rowFor, init, statement.value.columns.value);
      }
      if loop.Continue? && statement.Some? && statement.value.columns.Some? {
        var st := loop.st;
        var n := |statement.value.columns.value|;
        if |st.vals| > n {
          TrailingBindsMarkers(MarkerAt(sql), st.vals, n, |st.vals|, st.bound);
        }
      }
    }
  }

  // ---------------------------------------------------------------------
  // Result normalisation

  type Recordset = seq<Row>

  /** What `preparedStatement.execute` resolves to: `recordset` and
      `recordsets`, either of which may be missing. */
  datatype DriverResult = DriverResult(recordset: Option<Recordset>, recordsets: Option<seq<Recordset>>)

  /** The `result` sendNativeQuery returns. */
  datatype Normalized =
    | RowsAndFields(rows: Recordset, fields: Option<seq<Recordset>>)
    | OneRecordset(first: Recordset)
    | AllRecordsets(sets: seq<Recordset>)
    | EmptyResult

  /** Called with a manager and a `recordset`: `{rows, fields}`. Otherwise
      one recordset, or two with the second empty, collapse to the first;
      any other list stays a list; no result gives `{}`. */
  function NormalizeResult(isOrm: bool, result: Option<DriverResult>): (r: Normalized)
    ensures r.RowsAndFields? <==> !isOrm && result.Some? && result.value.recordset.Some?
    ensures r.RowsAndFields? ==> r.rows == result.value.recordset.value && r.fields == result.value.recordsets
    ensures r.OneRecordset? ==>
              result.Some? && result.value.recordsets.Some? &&
              var sets := result.value.recordsets.value;
              (|sets| == 1 || (|sets| == 2 && sets[1] == [])) && r.first == sets[0]
    ensures r.AllRecordsets? ==>
              result.Some? && result.value.recordsets.Some? &&
              var sets := result.value.recordsets.value;
              r.sets == sets && |sets| != 1 && !(|sets| == 2 && sets[1] == [])
    ensures r == EmptyResult <==>
              result.None? || (result.value.recordsets.None? && (isOrm || result.value.recordset.None?))
  {
    if !isOrm && result.Some? && result.value.recordset.Some? then
      RowsAndFields(result.value.recordset.value, result.value.recordsets)
    else if result.Some? && result.value.recordsets.Some? then
      var sets := result.value.recordsets.value;
      if |sets| == 1 || (|sets| == 2 && sets[1] == []) then OneRecordset(sets[0]) else AllRecordsets(sets)
    else EmptyResult
  }

  // ---------------------------------------------------------------------
  // The whole call

  /** What kind of value the `connection` input is: `null` / `undefined`,
      another primitive, or an object. */
  datatype ConnectionKind = Nullish | Primitive | Object

  /** The connection as sendNativeQuery sees it. Only an object has a
      `parentPool`; reading it off a nullish connection throws. */
  datatype ConnectionView = ConnectionView(kind: ConnectionKind, parentPool: Option<PoolShape>)
  {
    predicate IsObject() { kind == Object }
  }

  /** The manager sendNativeQuery ends up with: the pool it will check, or
      the TypeError of reading `parentPool` off a nullish connection. */
  datatype ManagerLookup = LookupThrew | Uses(pool: Option<PoolShape>)

  /** A manager, reduced to its `pool`. */
  datatype ManagerView = ManagerView(pool: Option<PoolShape>)

  /** How the prepare / execute / unprepare round trip went. */
  datatype DriverRun = PrepareFailed | ExecuteFailed | UnprepareFailed | Ran(result: Option<DriverResult>)

  /** The exits of sendNativeQuery. `queryFailed` carries the binder's
      message, or the driver's error (None here); `Errored` is an exception
      thrown out of the call. */
  datatype QueryExit =
    | Done(result: Normalized)
    | QueryFailure(message: Option<string>)
    | BadConnection
    | Errored

  /** What is handed to the driver: the SQL text and the declared parameters. */
  datatype PreparedQuery = PreparedQuery(sql: string, decls: seq<Declaration>, params: map<nat, Value>)

  /** The manager the call uses: the given one, or `{pool: connection.parentPool}`,
      which throws when the connection is `null` or `undefined`. */
  function EffectivePool(connection: ConnectionView, manager: Option<ManagerView>): (r: ManagerLookup)
    ensures r == LookupThrew <==> manager.None? && connection.kind == Nullish
    ensures manager.Some? ==> r == Uses(manager.value.pool)
    ensures manager.None? && connection.kind != Nullish ==> r == Uses(connection.parentPool)
  {
    if manager.Some? then Uses(manager.value.pool)
    else if connection.kind == Nullish then LookupThrew
    else Uses(connection.parentPool)
  }

  /** `sendNativeQuery`: validate, rewrite or bind, run, normalise. */
  method SendNativeQuery(connection: ConnectionView, manager: Option<ManagerView>, usingQuestionMarks: bool,
                         nativeQuery: string, valuesToEscape: array<Value>, statement: Option<Statement>,
                         rowFor: RowLookup, escape: Value -> string, run: DriverRun)
    returns (exit: QueryExit, sent: Option<PreparedQuery>)
    modifies valuesToEscape
    ensures connection.kind == Nullish && manager.None? ==>
              exit == Errored && sent.None? && valuesToEscape[..] == old(valuesToEscape[..])
    ensures var lookup := EffectivePool(connection, manager);
            lookup.Uses? && ValidateConnection(connection.IsObject(), lookup.pool) != Checked(true) ==>
              exit == BadConnection && sent.None? && valuesToEscape[..] == old(valuesToEscape[..])
    ensures !usingQuestionMarks ==> valuesToEscape[..] == old(valuesToEscape[..])
    ensures !usingQuestionMarks && sent.Some? ==>
              sent.value == PreparedQuery(RewriteTemplate(nativeQuery, old(valuesToEscape[..]), escape), [], map[])
    ensures usingQuestionMarks && EffectivePool(connection, manager).Uses? && exit != BadConnection ==>
              var bind := InlineBindSpec(old(valuesToEscape[..]), statement, nativeQuery, rowFor);
              valuesToEscape[..] == bind.vals
              && (bind.outcome.QueryFailed? ==> exit == QueryFailure(Some(bind.outcome.message)) && sent.None?)
              && (bind.outcome.Invalid? ==> exit == Errored && sent.None?)
              && (bind.outcome.Success? ==>
                    sent == Some(PreparedQuery(nativeQuery, bind.outcome.decls, bind.outcome.params)))
    ensures sent.Some? ==>
              exit == (if run.Ran? then Done(NormalizeResult(manager.None?, run.result)) else QueryFailure(None))
  {
    var isOrm := manager.None?;
    var lookup := EffectivePool(connection, manager);
    if lookup.LookupThrew? {
      return Errored, None;
    }
    var valid := ValidateConnection(connection.IsObject(), lookup.pool);
    if valid != Checked(true) {
      return BadConnection, None;
    }
    var query: PreparedQuery;
    if !usingQuestionMarks {
      query := PreparedQuery(RewriteTemplate(nativeQuery, valuesToEscape[..], escape), [], map[]);
    } else {
      var bound := InlineBind(nativeQuery, statement, rowFor, valuesToEscape);
      match bound
      case QueryFailed(message) =>
        return QueryFailure(Some(message)), None;
      case Invalid =>
        return Errored, None;
      case Success(decls, params) =>
        query := PreparedQuery(nativeQuery, decls, params);
    }
    sent := Some(query);
    match run
    case Ran(result) =>
      exit := Done(NormalizeResult(isOrm, result));
    case _ =>
      exit := QueryFailure(None);
  }
}
