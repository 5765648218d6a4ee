/** The parameter binder of lib/private/get-params.js: it walks the statement's
    columns with a running placeholder index `i`, binds pagination markers as
    BigInt, looks every column up in the table's INFORMATION_SCHEMA rows,
    rejects values longer than the column allows, chooses the wire type from
    the lower-cased DATA_TYPE, skips null-check-only placeholders, reuses the
    type of a column it has already typed, and binds trailing pagination
    values. The calls to `preparedStatement.input` are returned, in order, as
    a list of declarations; `params` is a map from placeholder index to value. */
module ParamBinder {
  import opened JsText
  import opened JsValue

  /** One row of INFORMATION_SCHEMA.COLUMNS; a SQL NULL is `None`. */
  datatype ColumnMeta = ColumnMeta(
    columnName: string,
    dataType: string,
    numericPrecision: Option<int>,
    numericScale: Option<int>,
    maxLength: Option<int>)

  predicate TruthyInt(x: Option<int>)
  {
    x.Some? && x.value != 0
  }

  /** `x + n` where `x` may be NULL, which JavaScript adds as 0. */
  function PlusOrZero(x: Option<int>, n: nat): int
  {
    (if x.Some? then x.value else 0) + n
  }

  /** The closed set of `mssql` parameter types the binders declare. */
  datatype WireType =
    | BigInt
    | Decimal(precision: Option<int>, scale: Option<int>)
    | VarChar(length: Option<int>)
    | Numeric(precision: Option<int>, scale: Option<int>)
    | Binary(length: Option<int>)
    | Bit
    | Char(length: Option<int>)
    | Date
    | DateTime
    | Float
    | Geography
    | Geometry
    | Image
    | Int
    | Money
    | NChar(length: Option<int>)
    | NText
    | NVarChar(length: Option<int>)
    | Real
    | Text
    | TimeMax
    | UniqueIdentifier
    | VarBinary(length: Option<int>)
    | VarBinaryMax
    | Xml

  /** The statement as the binder reads it: `tableName` "" stands for a
      missing or empty name, `columns` None for a missing column list. */
  datatype Statement = Statement(tableName: string, columns: Option<seq<string>>)

  /** One call `preparedStatement.input('p' + index, wire)`. */
  datatype Declaration = Declaration(index: nat, wire: WireType)

  /** One entry pushed on `typesMap`. */
  datatype TypedColumn = TypedColumn(column: string, wire: WireType)

  /** Why the column loop stops early. `Thrown` is an exception, which the
      binder turns into its `invalid` exit. */
  datatype BindError =
    | UnknownColumn(column: string, table: string)
    | ValueTooLarge(column: string, value: Value, authorized: int)
    | Thrown

  /** The binder's exits. */
  datatype BindOutcome =
    | Success(decls: seq<Declaration>, params: map<nat, Value>)
    | QueryFailed(message: string)
    | Invalid

  /** The state the column loop carries: the running index, the types map,
      the column rows (which the loop writes to), and what is bound so far. */
  datatype BindState = BindState(
    i: nat,
    typesMap: seq<TypedColumn>,
    catalog: seq<ColumnMeta>,
    decls: seq<Declaration>,
    params: map<nat, Value>)

  datatype StepResult = Next(st: BindState) | Stop(error: BindError)

  // ---------------------------------------------------------------------
  // The text tests the loop makes on the SQL

  /** `'@p' + i`. */
  function Placeholder(i: nat): string
  {
    "@p" + NatToString(i)
  }

  /** The SQL shows a pagination placeholder at index `i`:
      `top (@p<i>)` or `@p<i> rows`. */
  predicate Marker(sql: string, i: nat)
  {
    Includes(sql, "top (" + Placeholder(i) + ")") || Includes(sql, Placeholder(i) + " rows")
  }

  /** The window `sql.substr(indexOf('@p' + start), indexOf('@p' + i) + 4 - indexOf('@p' + start))`
      with `start = max(i - 1, 0)`, including the edge cases where either
      placeholder is missing (`indexOf` gives -1). */
  function ParameterPart(sql: string, i: nat): (part: string)
    ensures |part| <= |sql|
  {
    var startIndex: nat := if i > 1 then i - 1 else 0;
    var a := IndexOf(sql, Placeholder(startIndex));
    var b := IndexOf(sql, Placeholder(i));
    Substr(sql, a, b + 4 - a)
  }

  /** The bind-or-skip test: a placeholder is bound unless the window holds
      `[col] is null` or `[col] is not null` and none of `[col] =`, `>`, `<`, `!=`. */
  predicate ShouldBind(part: string, column: string)
  {
    var c := "[" + column + "]";
    (!Includes(part, c + " is not null") && !Includes(part, c + " is null"))
    || Includes(part, c + " =") || Includes(part, c + " >")
    || Includes(part, c + " <") || Includes(part, c + " !=")
  }

  /** The number of `%` in a truthy string value; 0 for anything else. */
  function PercentCount(v: Value): (n: nat)
    ensures v.Str? ==> n == multiset(v.s)['%'] && n <= |v.s|
    ensures v.Str? ==> (n == 0 <==> '%' !in v.s)
    ensures !v.Str? ==> n == 0
  {
    if v.Str? && v.s != "" then CountChar(v.s, '%') else 0
  }

  // ---------------------------------------------------------------------
  // Lookups

  /** `columnsProperties.find(el => el.COLUMN_NAME.toLowerCase() === column.toLowerCase())`,
      as the position of the row found. */
  function FindColumn(catalog: seq<ColumnMeta>, column: string): (r: Option<nat>)
    ensures r.Some? ==> r.value < |catalog| && ToLower(catalog[r.value].columnName) == ToLower(column)
    ensures r.Some? ==> forall k :: 0 <= k < r.value ==> ToLower(catalog[k].columnName) != ToLower(column)
    ensures r.None? <==> forall k :: 0 <= k < |catalog| ==> ToLower(catalog[k].columnName) != ToLower(column)
  {
    FindColumnFrom(catalog, column, 0)
  }

  function FindColumnFrom(catalog: seq<ColumnMeta>, column: string, from: nat): (r: Option<nat>)
    ensures r.Some? ==> from <= r.value < |catalog| && ToLower(catalog[r.value].columnName) == ToLower(column)
    ensures r.Some? ==> forall k :: from <= k < r.value ==> ToLower(catalog[k].columnName) != ToLower(column)
    ensures r.None? <==> forall k :: from <= k < |catalog| ==> ToLower(catalog[k].columnName) != ToLower(column)
    decreases |catalog| - from
  {
    if from >= |catalog| then None
    else if ToLower(catalog[from].columnName) == ToLower(column) then Some(from)
    else FindColumnFrom(catalog, column, from + 1)
  }

  /** `typesMap.find(el => el.column === column)`, as the type stored. */
  function LookupType(typesMap: seq<TypedColumn>, column: string): (r: Option<WireType>)
    ensures r.None? <==> forall k :: 0 <= k < |typesMap| ==> typesMap[k].column != column
    ensures r.Some? ==> exists k :: 0 <= k < |typesMap| && typesMap[k] == TypedColumn(column, r.value)
    decreases |typesMap|
  {
    if typesMap == [] then None
    else if typesMap[0].column == column then Some(typesMap[0].wire)
    else
      var r := LookupType(typesMap[1..], column);
      assert forall k :: 1 <= k < |typesMap| ==> typesMap[k] == typesMap[1..][k - 1];
      r
  }

  // ---------------------------------------------------------------------
  // Length check and type table

  /** The length check of get-params: the column's maximum is truthy and not
      -1 (MAX), the value is truthy, the DATA_TYPE is not exactly `xml`, and
      the value is longer than the maximum plus its `%` count. */
  predicate RejectsLength(meta: ColumnMeta, v: Value, specials: nat)
  {
    TruthyInt(meta.maxLength) && Truthy(v) && meta.dataType != "xml"
    && meta.maxLength.value != -1
    && LengthOf(v).Some? && LengthOf(v).value > meta.maxLength.value + specials
  }

  /** The wire type of the `switch (DATA_TYPE.toLowerCase())`, given the width
      the `varchar` case uses; anything not listed is `VarChar(max)`. */
  function WireTypeFor(meta: ColumnMeta, varcharWidth: int): WireType
  {
    WireTypeByName(ToLower(meta.dataType), meta.maxLength, meta.numericPrecision, meta.numericScale, varcharWidth)
  }

  /** The cases of that switch, by lower-cased name. */
  function WireTypeByName(t: string, max: Option<int>, precision: Option<int>, scale: Option<int>, varcharWidth: int): WireType
  {
    if t == "decimal" then Decimal(precision, scale)
    else if t == "varchar" then VarChar(Some(varcharWidth))
    else if t == "numeric" then Numeric(precision, scale)
    else if t == "bigint" then BigInt
    else if t == "binary" then Binary(max)
    else if t == "bit" then Bit
    else if t == "char" then Char(max)
    else if t == "date" then Date
    else if t == "datetime" then DateTime
    else if t == "float" then Float
    else if t == "geography" then Geography
    else if t == "geometry" then Geometry
    else if t == "image" then Image
    else if t == "int" then Int
    else if t == "money" then Money
    else if t == "nchar" then NChar(max)
    else if t == "ntext" then NText
    else if t == "nvarchar" then NVarChar(max)
    else if t == "real" then Real
    else if t == "text" then Text
    else if t == "timestamp" then TimeMax
    else if t == "uniqueidentifier" then UniqueIdentifier
    else if t == "varbinary" then VarBinary(max)
    else if t == "xml" then Xml
    else VarChar(max)
  }

  /** The DATA_TYPE names the type table lists. */
  predicate KnownDataType(t: string)
  {
    t in ["decimal", "varchar", "numeric", "bigint", "binary", "bit", "char", "date",
          "datetime", "float", "geography", "geometry", "image", "int", "money", "nchar",
          "ntext", "nvarchar", "real", "text", "timestamp", "uniqueidentifier", "varbinary", "xml"]
  }

  /** The type table falls back to `VarChar(CHARACTER_MAXIMUM_LENGTH)` exactly
      for the names it does not list, and reads DATA_TYPE case-insensitively. */
  lemma WireTypeFallback(meta: ColumnMeta, width: int)
    ensures !KnownDataType(ToLower(meta.dataType)) ==> WireTypeFor(meta, width) == VarChar(meta.maxLength)
  {
  }

  /** Two rows that differ only in the case of DATA_TYPE get the same type. */
  lemma WireTypeIgnoresCase(meta: ColumnMeta, other: ColumnMeta, width: int)
    requires other.(dataType := meta.dataType) == meta && ToLower(other.dataType) == ToLower(meta.dataType)
    ensures WireTypeFor(other, width) == WireTypeFor(meta, width)
  {
  }

  /** A Buffer value is always bound as `VarBinary(MAX)`, whatever the column. */
  function BufferOverride(w: WireType, v: Value): (r: WireType)
    ensures v.Bytes? ==> r == VarBinaryMax
    ensures !v.Bytes? ==> r == w
  {
    if v.Bytes? then VarBinaryMax else w
  }

  /** The xml case: a string holding `<?xml` loses everything up to and
      including the first `?>` (all but its first character when there is no
      `?>`, since `indexOf` gives -1). `includes` on a number, boolean, null or
      undefined throws (None); on a Buffer it searches the bytes, and the
      following `substr` then throws. */
  function StripXmlPrologue(v: Value): (r: Option<Value>)
    ensures v.Str? ==> r.Some? && r.value.Str? && |r.value.s| <= |v.s|
    ensures v.Str? && !Includes(v.s, "<?xml") ==> r == Some(v)
    ensures v.Str? && Includes(v.s, "<?xml") && Includes(v.s, "?>") ==>
              r == Some(Str(v.s[IndexOf(v.s, "?>") + 2..]))
    ensures v.Str? && Includes(v.s, "<?xml") && !Includes(v.s, "?>") ==> r == Some(Str(v.s[1..]))
    ensures v.Bytes? ==> (r.None? <==> Includes(v.octets, "<?xml"))
    ensures !v.Str? && !v.Bytes? ==> r.None?
  {
    match v
    case Str(s) =>
      if Includes(s, "<?xml") then
        var k := IndexOf(s, "?>");
        assert OccursAt(s, "<?xml", IndexOf(s, "<?xml"));
        assert 0 <= k + 2 <= |s|;
        var rest := Substr(s, k + 2, |s|);
        assert rest == s[k + 2..];
        Some(Str(rest))
      else Some(v)
    case Bytes(o) =>
      if Includes(o, "<?xml") then None else Some(v)
    case _ => None
  }

  /** The type chosen for one column, the row after the loop's write-back and
      the value bound. */
  datatype Typed = Typed(wire: WireType, meta: ColumnMeta, value: Value)

  /** The positive maximum get-params keeps; a NULL, zero or negative maximum
      on a `varchar` column is replaced by 1000 in the row itself. */
  predicate PositiveMax(x: Option<int>)
  {
    x.Some? && x.value > 0
  }

  /** The type switch of get-params with its write-back and the xml strip;
      None when the xml case throws. */
  function TypeColumn(meta: ColumnMeta, current: Value, specials: nat): (r: Option<Typed>)
    ensures r.Some? ==> r.value.meta.(maxLength := meta.maxLength) == meta
    ensures r.Some? && ToLower(meta.dataType) == "varchar" ==>
              PositiveMax(r.value.meta.maxLength)
              && r.value.meta.maxLength == (if PositiveMax(meta.maxLength) then meta.maxLength else Some(1000))
              && r.value.wire == BufferOverride(VarChar(Some(r.value.meta.maxLength.value + specials)), current)
    ensures r.Some? && ToLower(meta.dataType) != "varchar" ==> r.value.meta == meta
    ensures ToLower(meta.dataType) != "xml" ==> r.Some? && r.value.value == current
    ensures current.Bytes? && r.Some? ==> r.value.wire == VarBinaryMax
  {
    var t := ToLower(meta.dataType);
    if t == "varchar" then
      var meta' := if PositiveMax(meta.maxLength) then meta else meta.(maxLength := Some(1000));
      Some(Typed(BufferOverride(WireTypeFor(meta', meta'.maxLength.value + specials), current), meta', current))
    else if t == "xml" then
      match StripXmlPrologue(current)
      case None => None
      case Some(v) => Some(Typed(BufferOverride(Xml, v), meta, v))
    else
      Some(Typed(BufferOverride(WireTypeFor(meta, 0), current), meta, current))
  }

  // ---------------------------------------------------------------------
  // One pass of the column loop, as a specification

  /** Bind the value at the running index with the given type and advance. */
  function Declare(st: BindState, wire: WireType, v: Value): BindState
  {
    st.(decls := st.decls + [Declaration(st.i, wire)], params := st.params[st.i := v], i := st.i + 1)
  }

  /** The pagination check at the head of each pass. */
  function BindPagination(sql: string, values: seq<Value>, st: BindState): BindState
  {
    if Marker(sql, st.i) then Declare(st, BigInt, ValueAt(values, st.i)) else st
  }

  /** The body of the `for (let column of statement.columns)` loop. */
  function ColumnStep(sql: string, values: seq<Value>, table: string, st0: BindState, rawColumn: string): StepResult
  {
    ColumnBody(sql, values, table, BindPagination(sql, values, st0), LastSegment(rawColumn, '.'))
  }

  /** The loop body after the pagination check: type a column not seen
      before, or bind a remembered one again. */
  function ColumnBody(sql: string, values: seq<Value>, table: string, st: BindState, column: string): StepResult
  {
    var current := ValueAt(values, st.i);
    var part := ParameterPart(sql, st.i);
    var known := LookupType(st.typesMap, column);
    if known.None? && Includes(sql, column) then
      if |values| >= st.i && Includes(sql, Placeholder(st.i)) then
        TypeAndBind(table, st, column, current, part)
      else Next(st)
    else if ShouldBind(part, column) && known.Some? then
      Next(Declare(st, known.value, current))
    else Next(st)
  }

  /** The branch that types a column not seen before. */
  function TypeAndBind(table: string, st: BindState, column: string, current: Value, part: string): StepResult
  {
    var found := FindColumn(st.catalog, column);
    var specials := PercentCount(current);
    if found.None? then Stop(UnknownColumn(column, table))
    else
      var meta := st.catalog[found.value];
      if RejectsLength(meta, current, specials) then
        Stop(ValueTooLarge(column, current, meta.maxLength.value + specials))
      else
        match TypeColumn(meta, current, specials)
        case None => Stop(Thrown)
        case Some(t) =>
          var st' := st.(catalog := st.catalog[found.value := t.meta]);
          if ShouldBind(part, column) then
            Next(Declare(st'.(typesMap := st'.typesMap + [TypedColumn(column, t.wire)]), t.wire, t.value))
          else Next(st')
  }

  /** A column the catalog does not list stops the loop with the unknown
      column error; a value longer than the row allows stops it with the
      too-large error; a pass that types the column without binding it
      (a null-check-only placeholder) leaves the index and the bindings as
      they were, and one that binds it remembers its type and declares
      `@p<i>` with it. */
  lemma TypeAndBindOutcomes(table: string, st: BindState, column: string, current: Value, part: string)
    ensures (forall k :: 0 <= k < |st.catalog| ==> ToLower(st.catalog[k].columnName) != ToLower(column)) ==>
              TypeAndBind(table, st, column, current, part) == Stop(UnknownColumn(column, table))
    ensures FindColumn(st.catalog, column).Some? ==>
              var meta := st.catalog[FindColumn(st.catalog, column).value];
              RejectsLength(meta, current, PercentCount(current)) ==>
                TypeAndBind(table, st, column, current, part)
                == Stop(ValueTooLarge(column, current, meta.maxLength.value + PercentCount(current)))
    ensures var r := TypeAndBind(table, st, column, current, part);
            r.Next? && !ShouldBind(part, column) ==>
              r.st.i == st.i && r.st.decls == st.decls && r.st.params == st.params && r.st.typesMap == st.typesMap
    ensures var r := TypeAndBind(table, st, column, current, part);
            r.Next? && ShouldBind(part, column) ==>
              r.st.i == st.i + 1 && |r.st.typesMap| == |st.typesMap| + 1
              && r.st.typesMap[..|st.typesMap|] == st.typesMap && r.st.typesMap[|st.typesMap|].column == column
              && r.st.decls == st.decls + [Declaration(st.i, r.st.typesMap[|st.typesMap|].wire)]
  {
  }

  /** A column already typed is bound again with the remembered type, under
      the same null-check rule, wherever it appears; a new column the SQL
      does not mention binds nothing. */
  lemma ColumnBodyCases(sql: string, values: seq<Value>, table: string, st: BindState, column: string)
    ensures LookupType(st.typesMap, column).Some? ==>
              ColumnBody(sql, values, table, st, column)
              == Next(if ShouldBind(ParameterPart(sql, st.i), column)
                      then Declare(st, LookupType(st.typesMap, column).value, ValueAt(values, st.i))
                      else st)
    ensures LookupType(st.typesMap, column).None? && !Includes(sql, column) ==>
              ColumnBody(sql, values, table, st, column) == Next(st)
  {
  }

  /** The column loop over `columns`, from the back so that a loop can extend it. */
  function RunColumns(sql: string, values: seq<Value>, table: string, init: BindState, columns: seq<string>): StepResult
    decreases |columns|
  {
    if columns == [] then Next(init)
    else
      match RunColumns(sql, values, table, init, columns[..|columns| - 1])
      case Stop(e) => Stop(e)
      case Next(st) => ColumnStep(sql, values, table, st, columns[|columns| - 1])
  }

  /** The pagination test as a predicate on indices. */
  function MarkerAt(sql: string): nat -> bool
  {
    (k: nat) => Marker(sql, k)
  }

  /** The trailing `while` loop: indices `lo .. hi-1` are bound as BigInt
      where `marked` holds (the SQL shows a pagination marker). */
  function Trailing(marked: nat -> bool, values: seq<Value>, lo: nat, hi: nat, st: BindState): BindState
    requires hi <= |values|
    decreases hi
  {
    if hi <= lo then st
    else
      var prev := Trailing(marked, values, lo, hi - 1, st);
      if marked(hi - 1) then
        prev.(decls := prev.decls + [Declaration(hi - 1, BigInt)], params := prev.params[hi - 1 := values[hi - 1]])
      else prev
  }

  function InitState(catalog: seq<ColumnMeta>): BindState
  {
    BindState(0, [], catalog, [], map[])
  }

  function UnknownColumnMessage(column: string, table: string): string
  {
    column + " not exist in table " + table + " check your model"
  }

  /** What `'' + value` gives for the values the length check can reject. */
  function ValueText(v: Value): string
  {
    match v
    case Str(s) => s
    case Bytes(o) => o
    case _ => ""
  }

  function TooLargeMessage(column: string, v: Value, authorized: int): string
  {
    "Column " + column + " is too many large with this value " + ValueText(v)
    + ", the length authorized is " + IntToString(authorized)
  }

  function ErrorOutcome(e: BindError): BindOutcome
  {
    match e
    case UnknownColumn(c, t) => QueryFailed(UnknownColumnMessage(c, t))
    case ValueTooLarge(c, v, n) => QueryFailed(TooLargeMessage(c, v, n))
    case Thrown => Invalid
  }

  /** The column loop runs when the statement, its columns and a non-empty
      table name are all present. */
  predicate RunsColumnLoop(statement: Option<Statement>)
  {
    statement.Some? && statement.value.columns.Some? && statement.value.tableName != ""
  }

  /** The whole of `getParams`, as a specification. `catalog` is what the
      metadata query for the table returned; None when it failed, which
      throws into the `invalid` exit. */
  function GetParamsSpec(values: seq<Value>, statement: Option<Statement>, sql: string,
                         catalog: Option<seq<ColumnMeta>>): BindOutcome
  {
    if |values| == 0 then Success([], map[])
    else if RunsColumnLoop(statement) && catalog.None? then Invalid
    else
      var loop :=
        if RunsColumnLoop(statement)
        then RunColumns(sql, values, statement.value.tableName, InitState(catalog.value), statement.value.columns.value)
        else Next(InitState([]));
      match loop
      case Stop(e) => ErrorOutcome(e)
      case Next(st) =>
        if statement.None? || statement.value.columns.None? then Invalid
        else
          var n := |statement.value.columns.value|;
          var fin := if |values| > n then Trailing(MarkerAt(sql), values, n, |values|, st) else st;
          Success(fin.decls, fin.params)
  }

  // ---------------------------------------------------------------------
  // The method

  /** `getParams`: the column loop and the trailing loop, step by step. */
  method GetParams(values: seq<Value>, statement: Option<Statement>, sql: string,
                   catalog: Option<seq<ColumnMeta>>) returns (out: BindOutcome)
    ensures out == GetParamsSpec(values, statement, sql, catalog)
  {
    if |values| == 0 {
      return Success([], map[]);
    }
    var st := InitState([]);
    if RunsColumnLoop(statement) {
      if catalog.None? {
        return Invalid;
      }
      var columns := statement.value.columns.value;
      var table := statement.value.tableName;
      st := InitState(catalog.value);
      for n := 0 to |columns|
        invariant RunColumns(sql, values, table, InitState(catalog.value), columns[..n]) == Next(st)
      {
        assert columns[..n + 1][..n] == columns[..n];
        var step := BindColumn(sql, values, table, st, columns[n]);
        if step.Stop? {
          RunStopsForGood(sql, values, table, InitState(catalog.value), columns, n + 1);
          return ErrorOutcome(step.error);
        }
        st := step.st;
      }
      assert columns[..|columns|] == columns;
    }
    if statement.None? || statement.value.columns.None? {
      return Invalid;
    }
    var count := |statement.value.columns.value|;
    if |values| > count {
      var decls, params := BindTrailing(sql, values, count, st);
      st := st.(decls := decls, params := params);
    }
    return Success(st.decls, st.params);
  }

  /** One pass of the column loop: the pagination check, then either typing
      a new column against the catalog or reusing the type remembered for it. */
  method BindColumn(sql: string, values: seq<Value>, table: string, before: BindState, rawColumn: string)
    returns (r: StepResult)
    ensures r == ColumnStep(sql, values, table, before, rawColumn)
  {
    var column := LastSegment(rawColumn, '.');
    var st := before;
    if Marker(sql, st.i) {
      st := Declare(st, BigInt, ValueAt(values, st.i));
    }
    assert st == BindPagination(sql, values, before);
    var current := ValueAt(values, st.i);
    var part := ParameterPart(sql, st.i);
    var known := LookupType(st.typesMap, column);
    if known.None? && Includes(sql, column) {
      if |values| >= st.i && Includes(sql, Placeholder(st.i)) {
        r := BindNewColumn(table, st, column, current, part);
      } else {
        r := Next(st);
      }
    } else if ShouldBind(part, column) && known.Some? {
      r := Next(Declare(st, known.value, current));
    } else {
      r := Next(st);
    }
  }

  /** A column not seen before: look it up in the catalog, check the length,
      choose the type (writing the row back) and bind the value. */
  method BindNewColumn(table: string, st: BindState, column: string, current: Value, part: string)
    returns (r: StepResult)
    ensures r == TypeAndBind(table, st, column, current, part)
  {
    var props := st.catalog;
    var found := FindColumn(props, column);
    var specials := PercentCount(current);
    if found.None? {
      return Stop(UnknownColumn(column, table));
    }
    var meta := props[found.value];
    if RejectsLength(meta, current, specials) {
      return Stop(ValueTooLarge(column, current, meta.maxLength.value + specials));
    }
    var typed := TypeColumn(meta, current, specials);
    if typed.None? {
      return Stop(Thrown);
    }
    props := props[found.value := typed.value.meta];
    if ShouldBind(part, column) {
      var typesMap := st.typesMap + [TypedColumn(column, typed.value.wire)];
      return Next(BindState(st.i + 1, typesMap, props, st.decls + [Declaration(st.i, typed.value.wire)],
                            st.params[st.i := typed.value.value]));
    }
    return Next(st.(catalog := props));
  }

  /** The trailing `while` loop of `getParams`, from index `count` to the end
      of the values. */
  method BindTrailing(sql: string, values: seq<Value>, count: nat, looped: BindState)
    returns (decls: seq<Declaration>, params: map<nat, Value>)
    requires count <= |values|
    ensures Trailing(MarkerAt(sql), values, count, |values|, looped) == looped.(decls := decls, params := params)
  {
    decls, params := looped.decls, looped.params;
    var j := count;
    while j < |values|
      invariant count <= j <= |values|
      invariant Trailing(MarkerAt(sql), values, count, j, looped) == looped.(decls := decls, params := params)
    {
      if Marker(sql, j) {
        decls := decls + [Declaration(j, BigInt)];
        params := params[j := values[j]];
      }
      j := j + 1;
    }
  }

  /** Once a prefix of the columns stops the loop, every longer prefix does. */
  lemma {:induction false} RunStopsForGood(sql: string, values: seq<Value>, table: string, init: BindState,
                                           columns: seq<string>, n: nat)
    requires n <= |columns|
    requires RunColumns(sql, values, table, init, columns[..n]).Stop?
    ensures RunColumns(sql, values, table, init, columns) == RunColumns(sql, values, table, init, columns[..n])
    decreases |columns| - n
  {
    if n < |columns| {
      var longer := columns[..n + 1];
      assert longer[..|longer| - 1] == columns[..n];
      assert RunColumns(sql, values, table, init, longer) == RunColumns(sql, values, table, init, columns[..n]);
      RunStopsForGood(sql, values, table, init, columns, n + 1);
    } else {
      assert columns[..n] == columns;
    }
  }

  // ---------------------------------------------------------------------
  // What the column loop keeps true

  /** The declarations made so far are exactly `@p0 .. @p(i-1)`, in order;
      the bound indices are exactly those; the value bound at an index is the
      value at that index unless the column is xml (whose prologue is
      stripped); and no column is typed twice. */
  ghost predicate LoopInvariant(values: seq<Value>, st: BindState)
  {
    |st.decls| == st.i
    && (forall k :: 0 <= k < |st.decls| ==> st.decls[k].index == k)
    && (forall k: nat :: k in st.params <==> k < st.i)
    && (forall k :: 0 <= k < |st.decls| && st.decls[k].wire != Xml ==> k in st.params && st.params[k] == ValueAt(values, k))
    && (forall a, b :: 0 <= a < b < |st.typesMap| ==> st.typesMap[a].column != st.typesMap[b].column)
  }

  /** How the loop may change a column row: only the maximum length of a
      `varchar` column without a positive one, which becomes 1000. */
  ghost predicate CatalogEvolves(c0: seq<ColumnMeta>, c1: seq<ColumnMeta>)
  {
    |c1| == |c0|
    && forall k :: 0 <= k < |c0| ==>
         c1[k].(maxLength := c0[k].maxLength) == c0[k]
         && (c1[k].maxLength == c0[k].maxLength
             || (ToLower(c0[k].dataType) == "varchar" && !PositiveMax(c0[k].maxLength) && c1[k].maxLength == Some(1000)))
  }

  lemma CatalogEvolvesTrans(c0: seq<ColumnMeta>, c1: seq<ColumnMeta>, c2: seq<ColumnMeta>)
    requires CatalogEvolves(c0, c1) && CatalogEvolves(c1, c2)
    ensures CatalogEvolves(c0, c2)
  {
    forall k | 0 <= k < |c0|
      ensures c2[k].(maxLength := c0[k].maxLength) == c0[k]
      ensures c2[k].maxLength == c0[k].maxLength
              || (ToLower(c0[k].dataType) == "varchar" && !PositiveMax(c0[k].maxLength) && c2[k].maxLength == Some(1000))
    {
      assert c1[k].dataType == c0[k].dataType;
    }
  }

  /** Binding at the running index keeps the invariant. */
  lemma DeclareKeeps(values: seq<Value>, st: BindState, wire: WireType, v: Value)
    requires LoopInvariant(values, st)
    requires wire != Xml ==> v == ValueAt(values, st.i)
    ensures LoopInvariant(values, Declare(st, wire, v))
  {
    var st' := Declare(st, wire, v);
    forall k | 0 <= k < |st'.decls| && st'.decls[k].wire != Xml
      ensures k in st'.params && st'.params[k] == ValueAt(values, k)
    {
      if k < |st.decls| {
        assert st'.decls[k] == st.decls[k];
      }
    }
  }

  /** Typing a new column keeps the invariant, changes the row as the
      write-back allows and advances the index by at most one. */
  lemma TypeAndBindKeeps(values: seq<Value>, c0: seq<ColumnMeta>, table: string, st: BindState,
                         column: string, part: string)
    requires LoopInvariant(values, st) && CatalogEvolves(c0, st.catalog)
    requires LookupType(st.typesMap, column).None?
    requires TypeAndBind(table, st, column, ValueAt(values, st.i), part).Next?
    ensures var st' := TypeAndBind(table, st, column, ValueAt(values, st.i), part).st;
            LoopInvariant(values, st') && CatalogEvolves(c0, st'.catalog)
            && st.i <= st'.i <= st.i + 1 && st'.decls[..|st.decls|] == st.decls
  {
    var current := ValueAt(values, st.i);
    var found := FindColumn(st.catalog, column).value;
    var t := TypeAndBindTyped(table, st, column, current, part);
    NewColumnKeeps(values, c0, st, found, t, column, ShouldBind(part, column));
  }

  /** The state after typing a new column: the row written back, and when
      bound, the type remembered and the value declared. */
  function NewColumnState(st: BindState, found: nat, t: Typed, column: string, bind: bool): BindState
    requires found < |st.catalog|
  {
    var st1 := st.(catalog := st.catalog[found := t.meta]);
    if bind then Declare(st1.(typesMap := st1.typesMap + [TypedColumn(column, t.wire)]), t.wire, t.value)
    else st1
  }

  lemma NewColumnKeeps(values: seq<Value>, c0: seq<ColumnMeta>, st: BindState, found: nat, t: Typed,
                       column: string, bind: bool)
    requires LoopInvariant(values, st) && CatalogEvolves(c0, st.catalog) && found < |st.catalog|
    requires LookupType(st.typesMap, column).None?
    requires TypeColumn(st.catalog[found], ValueAt(values, st.i), PercentCount(ValueAt(values, st.i))) == Some(t)
    ensures var st' := NewColumnState(st, found, t, column, bind);
            LoopInvariant(values, st') && CatalogEvolves(c0, st'.catalog)
            && st.i <= st'.i <= st.i + 1 && st'.decls[..|st.decls|] == st.decls
  {
    var st1 := st.(catalog := st.catalog[found := t.meta]);
    WriteBackKeeps(values, c0, st, found, t.meta);
    if bind {
      var st2 := st1.(typesMap := st1.typesMap + [TypedColumn(column, t.wire)]);
      RememberKeeps(values, st1, column, t.wire);
      DeclareKeeps(values, st2, t.wire, t.value);
    }
  }

  /** Writing a row back as the type switch does keeps the invariant and the
      catalog's shape. */
  lemma WriteBackKeeps(values: seq<Value>, c0: seq<ColumnMeta>, st: BindState, found: nat, m: ColumnMeta)
    requires LoopInvariant(values, st) && CatalogEvolves(c0, st.catalog) && found < |st.catalog|
    requires m.(maxLength := st.catalog[found].maxLength) == st.catalog[found]
    requires m.maxLength == st.catalog[found].maxLength
             || (ToLower(m.dataType) == "varchar" && !PositiveMax(st.catalog[found].maxLength) && m.maxLength == Some(1000))
    ensures LoopInvariant(values, st.(catalog := st.catalog[found := m]))
    ensures CatalogEvolves(c0, st.catalog[found := m])
  {
    assert CatalogEvolves(st.catalog, st.catalog[found := m]);
    CatalogEvolvesTrans(c0, st.catalog, st.catalog[found := m]);
  }

  /** Remembering the type of a column not in the types map keeps the
      invariant. */
  lemma RememberKeeps(values: seq<Value>, st: BindState, column: string, wire: WireType)
    requires LoopInvariant(values, st) && LookupType(st.typesMap, column).None?
    ensures LoopInvariant(values, st.(typesMap := st.typesMap + [TypedColumn(column, wire)]))
  {
  }

  /** The typed column of a pass that binds: the row found, the row as
      written back, and the value, which is the one read unless the column is
      xml. */
  lemma TypeAndBindTyped(table: string, st: BindState, column: string, current: Value, part: string)
    returns (t: Typed)
    requires TypeAndBind(table, st, column, current, part).Next?
    ensures FindColumn(st.catalog, column).Some?
    ensures var found := FindColumn(st.catalog, column).value;
            var meta := st.catalog[found];
            TypeColumn(meta, current, PercentCount(current)) == Some(t)
            && TypeAndBind(table, st, column, current, part).st == NewColumnState(st, found, t, column, ShouldBind(part, column))
  {
    var found := FindColumn(st.catalog, column).value;
    t := TypeColumn(st.catalog[found], current, PercentCount(current)).value;
  }

  /** One pass of the loop keeps the invariant and the catalog's shape,
      extends the declarations and advances the index by at most two. */
  lemma StepKeeps(sql: string, values: seq<Value>, table: string, c0: seq<ColumnMeta>, st: BindState, raw: string)
    requires LoopInvariant(values, st) && CatalogEvolves(c0, st.catalog)
    requires ColumnStep(sql, values, table, st, raw).Next?
    ensures var st' := ColumnStep(sql, values, table, st, raw).st;
            LoopInvariant(values, st') && CatalogEvolves(c0, st'.catalog)
            && st.i <= st'.i <= st.i + 2 && st'.decls[..|st.decls|] == st.decls
  {
    var st1 := BindPagination(sql, values, st);
    PaginationKeeps(sql, values, st);
    BodyKeeps(sql, values, table, c0, st1, LastSegment(raw, '.'));
    var st2 := ColumnBody(sql, values, table, st1, LastSegment(raw, '.')).st;
    PrefixOfPrefix(st2.decls, st1.decls, st.decls);
  }

  lemma PrefixOfPrefix<T>(a: seq<T>, b: seq<T>, c: seq<T>)
    requires |c| <= |b| <= |a| && a[..|b|] == b && b[..|c|] == c
    ensures a[..|c|] == c
  {
    assert a[..|c|] == a[..|b|][..|c|];
  }

  /** The pagination check keeps the invariant and binds at most one index. */
  lemma PaginationKeeps(sql: string, values: seq<Value>, st: BindState)
    requires LoopInvariant(values, st)
    ensures var st1 := BindPagination(sql, values, st);
            LoopInvariant(values, st1) && st1.catalog == st.catalog
            && st.i <= st1.i <= st.i + 1 && st1.decls[..|st.decls|] == st.decls
  {
    if Marker(sql, st.i) {
      DeclareKeeps(values, st, BigInt, ValueAt(values, st.i));
    }
  }

  /** The rest of the pass keeps the invariant and the catalog's shape and
      binds at most one index. */
  lemma BodyKeeps(sql: string, values: seq<Value>, table: string, c0: seq<ColumnMeta>, st: BindState, column: string)
    requires LoopInvariant(values, st) && CatalogEvolves(c0, st.catalog)
    requires ColumnBody(sql, values, table, st, column).Next?
    ensures var st' := ColumnBody(sql, values, table, st, column).st;
            LoopInvariant(values, st') && CatalogEvolves(c0, st'.catalog)
            && st.i <= st'.i <= st.i + 1 && st'.decls[..|st.decls|] == st.decls
  {
    var current := ValueAt(values, st.i);
    var part := ParameterPart(sql, st.i);
    var known := LookupType(st.typesMap, column);
    if known.None? && Includes(sql, column) {
      if |values| >= st.i && Includes(sql, Placeholder(st.i)) {
        TypeAndBindKeeps(values, c0, table, st, column, part);
      }
    } else if ShouldBind(part, column) && known.Some? {
      DeclareKeeps(values, st, known.value, current);
    }
  }

  /** The whole column loop keeps the invariant from the start state: its
      declarations are `@p0 .. @p(i-1)` with `i` at most twice the number of
      columns, and the rows change only by the `varchar` write-back. */
  lemma {:induction false} RunColumnsKeeps(sql: string, values: seq<Value>, table: string,
                                           catalog: seq<ColumnMeta>, columns: seq<string>)
    requires RunColumns(sql, values, table, InitState(catalog), columns).Next?
    ensures var st := RunColumns(sql, values, table, InitState(catalog), columns).st;
            LoopInvariant(values, st) && CatalogEvolves(catalog, st.catalog) && st.i <= 2 * |columns|
    decreases |columns|
  {
    if columns == [] {
      assert CatalogEvolves(catalog, catalog);
    } else {
      var prefix := columns[..|columns| - 1];
      RunColumnsKeeps(sql, values, table, catalog, prefix);
      var st := RunColumns(sql, values, table, InitState(catalog), prefix).st;
      StepKeeps(sql, values, table, catalog, st, columns[|columns| - 1]);
    }
  }

  /** The trailing loop only appends declarations, and leaves the index,
      the types map and the rows alone. */
  lemma {:induction false} TrailingAppends(marked: nat -> bool, values: seq<Value>, lo: nat, hi: nat, st: BindState)
    requires hi <= |values|
    ensures var fin := Trailing(marked, values, lo, hi, st);
            fin.i == st.i && fin.typesMap == st.typesMap && fin.catalog == st.catalog
            && |st.decls| <= |fin.decls| && fin.decls[..|st.decls|] == st.decls
    decreases hi
  {
    if hi > lo {
      TrailingAppends(marked, values, lo, hi - 1, st);
      var prev := Trailing(marked, values, lo, hi - 1, st);
      var fin := Trailing(marked, values, lo, hi, st);
      assert fin.decls[..|st.decls|] == prev.decls[..|st.decls|];
    }
  }

  /** What the trailing loop appends is, in increasing order of index, one
      BigInt declaration per marked index in `lo .. hi-1`. */
  lemma {:induction false} TrailingDeclaresMarkers(marked: nat -> bool, values: seq<Value>, lo: nat, hi: nat, st: BindState)
    requires hi <= |values|
    ensures var fin := Trailing(marked, values, lo, hi, st);
            |st.decls| <= |fin.decls|
            && (forall k :: |st.decls| <= k < |fin.decls| ==>
                  fin.decls[k].wire == BigInt && lo <= fin.decls[k].index < hi && marked(fin.decls[k].index))
            && (forall a, b :: |st.decls| <= a < b < |fin.decls| ==> fin.decls[a].index < fin.decls[b].index)
    decreases hi
  {
    if hi > lo {
      TrailingDeclaresMarkers(marked, values, lo, hi - 1, st);
      var prev := Trailing(marked, values, lo, hi - 1, st);
      if marked(hi - 1) {
        var fin := Trailing(marked, values, lo, hi, st);
        assert fin.decls == prev.decls + [Declaration(hi - 1, BigInt)];
        forall k | |st.decls| <= k < |fin.decls|
          ensures fin.decls[k].wire == BigInt && lo <= fin.decls[k].index < hi && marked(fin.decls[k].index)
        {
          if k < |prev.decls| {
            assert fin.decls[k] == prev.decls[k];
          }
        }
        forall a, b | |st.decls| <= a < b < |fin.decls|
          ensures fin.decls[a].index < fin.decls[b].index
        {
          assert fin.decls[a] == prev.decls[a];
          if b < |prev.decls| {
            assert fin.decls[b] == prev.decls[b];
          }
        }
      }
    }
  }

  /** Every marked index in `lo .. hi-1` gets its BigInt declaration. */
  lemma {:induction false} TrailingDeclaresEveryMarker(marked: nat -> bool, values: seq<Value>, lo: nat, hi: nat,
                                                       st: BindState)
    requires hi <= |values|
    ensures var fin := Trailing(marked, values, lo, hi, st);
            |st.decls| <= |fin.decls|
            && forall k :: lo <= k < hi && marked(k) ==> Declaration(k, BigInt) in fin.decls[|st.decls|..]
    decreases hi
  {
    if hi > lo {
      TrailingDeclaresEveryMarker(marked, values, lo, hi - 1, st);
      var prev := Trailing(marked, values, lo, hi - 1, st);
      if marked(hi - 1) {
        var fin := Trailing(marked, values, lo, hi, st);
        assert fin.decls[|st.decls|..] == prev.decls[|st.decls|..] + [Declaration(hi - 1, BigInt)];
      }
    }
  }

  /** The trailing loop binds the value at each marked index in `lo .. hi-1`
      and leaves every other bound index as it was. */
  lemma {:induction false} TrailingBindsMarkers(marked: nat -> bool, values: seq<Value>, lo: nat, hi: nat, st: BindState)
    requires hi <= |values|
    ensures var fin := Trailing(marked, values, lo, hi, st);
            (forall k :: lo <= k < hi && marked(k) ==> k in fin.params && fin.params[k] == values[k])
            && (forall k :: k in fin.params <==> k in st.params || (lo <= k < hi && marked(k)))
            && (forall k :: k in st.params && !(lo <= k < hi && marked(k)) ==> fin.params[k] == st.params[k])
    decreases hi
  {
    if hi > lo {
      TrailingBindsMarkers(marked, values, lo, hi - 1, st);
      var prev := Trailing(marked, values, lo, hi - 1, st);
      var fin := Trailing(marked, values, lo, hi, st);
      var m := marked(hi - 1);
      assert fin.params == if m then prev.params[hi - 1 := values[hi - 1]] else prev.params;
      forall k | lo <= k < hi && marked(k)
        ensures k in fin.params && fin.params[k] == values[k]
      {
        if k < hi - 1 {
          assert k in prev.params && prev.params[k] == values[k];
        }
      }
    }
  }

  /** The number of columns the trailing loop starts from. */
  function ColumnCount(statement: Option<Statement>): nat
  {
    if statement.Some? && statement.value.columns.Some? then |statement.value.columns.value| else 0
  }

  /** The shape of a finished binding: every declared placeholder has a
      value and every bound index is declared; a declaration either comes
      from the column loop, where the n-th one declares `@p<n>`, or is a
      BigInt pagination marker at an index from `n` on; and the value bound
      at a declaration that is not xml is the value at its own index. */
  ghost predicate BindingsWellFormed(sql: string, values: seq<Value>, n: nat, decls: seq<Declaration>,
                                     params: map<nat, Value>)
  {
    (forall k :: 0 <= k < |decls| ==> decls[k].index in params)
    && (forall k :: k in params ==> exists d :: d in decls && d.index == k)
    && (forall k :: 0 <= k < |decls| ==>
          decls[k].index == k || (decls[k].wire == BigInt && Marker(sql, decls[k].index) && n <= decls[k].index < |values|))
    && (forall k :: 0 <= k < |decls| && decls[k].wire != Xml ==> params[decls[k].index] == ValueAt(values, decls[k].index))
  }

  /** The column loop's result is well formed on its own. */
  lemma LoopBindingsWellFormed(sql: string, values: seq<Value>, n: nat, st: BindState)
    requires LoopInvariant(values, st)
    ensures BindingsWellFormed(sql, values, n, st.decls, st.params)
  {
    forall k | k in st.params
      ensures exists d :: d in st.decls && d.index == k
    {
      assert st.decls[k].index == k;
    }
  }

  /** The trailing loop keeps the result well formed. */
  lemma TrailingBindingsWellFormed(sql: string, values: seq<Value>, n: nat, st: BindState)
    requires LoopInvariant(values, st) && n <= |values|
    ensures var fin := Trailing(MarkerAt(sql), values, n, |values|, st);
            BindingsWellFormed(sql, values, n, fin.decls, fin.params)
  {
    var fin := Trailing(MarkerAt(sql), values, n, |values|, st);
    TrailingAppends(MarkerAt(sql), values, n, |values|, st);
    TrailingDeclaresMarkers(MarkerAt(sql), values, n, |values|, st);
    TrailingDeclaresEveryMarker(MarkerAt(sql), values, n, |values|, st);
    TrailingBindsMarkers(MarkerAt(sql), values, n, |values|, st);
    forall k | k in fin.params
      ensures exists d :: d in fin.decls && d.index == k
    {
      if k in st.params {
        assert fin.decls[k] == st.decls[k];
      } else {
        assert Declaration(k, BigInt) in fin.decls[|st.decls|..];
      }
    }
    forall k | 0 <= k < |fin.decls|
      ensures fin.decls[k].index in fin.params
      ensures fin.decls[k].index == k
              || (fin.decls[k].wire == BigInt && Marker(sql, fin.decls[k].index) && n <= fin.decls[k].index < |values|)
      ensures fin.decls[k].wire != Xml ==> fin.params[fin.decls[k].index] == ValueAt(values, fin.decls[k].index)
    {
      if k < |st.decls| {
        assert fin.decls[k] == st.decls[k];
      }
    }
  }

  /** On success the bindings `getParams` returns are well formed. */
  lemma GetParamsBindings(values: seq<Value>, statement: Option<Statement>, sql: string,
                          catalog: Option<seq<ColumnMeta>>)
    requires GetParamsSpec(values, statement, sql, catalog).Success?
    ensures var out := GetParamsSpec(values, statement, sql, catalog);
            BindingsWellFormed(sql, values, ColumnCount(statement), out.decls, out.params)
  {
    if |values| > 0 {
      var st := InitState([]);
      if RunsColumnLoop(statement) {
        RunColumnsKeeps(sql, values, statement.value.tableName, catalog.value, statement.value.columns.value);
        st := RunColumns(sql, values, statement.value.tableName, InitState(catalog.value), statement.value.columns.value).st;
      }
      var n := ColumnCount(statement);
      if |values| > n {
        TrailingBindingsWellFormed(sql, values, n, st);
      } else {
        LoopBindingsWellFormed(sql, values, n, st);
      }
    }
  }
}
