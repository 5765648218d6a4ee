/** lib/parse-native-query-result.js: the result of a native query,
    normalised for the kind of query it came from. `meta` passes through
    and is not modelled. */
module QueryResults {
  import opened JsText
  import opened JsValue
  import opened NativeQuery

  /** The raw result as the parser reads it: `rows` (None when missing) and
      `affectedRows`. */
  datatype NativeResult = NativeResult(rows: Option<seq<Row>>, affectedRows: Value)

  /** The normalised result: the rows themselves, `{inserted}`,
      `{numRecordsUpdated}`, `{numRecordsDeleted}`, a number, or undefined. */
  datatype QueryResult =
    | Rows(rows: Option<seq<Row>>)
    | Inserted(id: Value)
    | NumRecordsUpdated(rows: Option<seq<Row>>)
    | NumRecordsDeleted(count: Value)
    | Number(n: JsNumber)
    | NoResult

  /** The success exit, or the TypeError thrown when `rows[0]` is read on
      missing or empty rows. */
  datatype ResultExit = Normalised(result: QueryResult) | Threw

  /** `rows[0]`, when there is a first row. */
  function FirstRow(rows: Option<seq<Row>>): Option<Row>
  {
    if rows.Some? && |rows.value| > 0 then Some(rows.value[0]) else None
  }

  /** `Number(rows[0][_.first(_.keys(rows[0]))])`: the first column of the
      first row; a row without keys is read under `undefined`, giving NaN. */
  function Aggregate(rows: Option<seq<Row>>): ResultExit
  {
    match FirstRow(rows)
    case None => Threw
    case Some(row) => Normalised(Number(ToNumber(if row == [] then Undefined else Property(row, row[0].0))))
  }

  predicate IsAggregate(queryType: string)
  {
    queryType == "avg" || queryType == "sum" || queryType == "count"
  }

  function ParseResult(queryType: string, result: NativeResult): ResultExit
  {
    if queryType == "select" then Normalised(Rows(result.rows))
    else if queryType == "insert" then
      match FirstRow(result.rows)
      case None => Threw
      case Some(row) => Normalised(Inserted(Property(row, "insertId")))
    else if queryType == "update" then Normalised(NumRecordsUpdated(result.rows))
    else if queryType == "delete" then Normalised(NumRecordsDeleted(result.affectedRows))
    else if IsAggregate(queryType) then Aggregate(result.rows)
    else Normalised(NoResult)
  }

  /** What each query type gives. Only `insert` and the aggregates read a
      row, and only they can throw; every other type, `destroy` included,
      normalises without looking inside the rows. */
  lemma ParseResultCases(queryType: string, result: NativeResult)
    ensures queryType == "select" ==> ParseResult(queryType, result) == Normalised(Rows(result.rows))
    ensures queryType == "update" ==> ParseResult(queryType, result) == Normalised(NumRecordsUpdated(result.rows))
    ensures queryType == "delete" ==> ParseResult(queryType, result) == Normalised(NumRecordsDeleted(result.affectedRows))
    ensures queryType == "insert" && FirstRow(result.rows).Some? ==>
              ParseResult(queryType, result) == Normalised(Inserted(Property(result.rows.value[0], "insertId")))
    ensures ParseResult(queryType, result) == Threw <==>
              (queryType == "insert" || IsAggregate(queryType)) && (result.rows.None? || result.rows.value == [])
    ensures queryType !in {"select", "insert", "update", "delete", "avg", "sum", "count"} ==>
              ParseResult(queryType, result) == Normalised(NoResult)
  {
  }

  /** `destroy`, though documented as a query type, is not one of the cases
      and gives no result. */
  lemma DestroyGivesNoResult(result: NativeResult)
    ensures ParseResult("destroy", result) == Normalised(NoResult)
  {
  }

  /** An aggregate is the first column of the first row, as a number: a
      count rendered in decimal reads back as that count, and a first row
      without columns gives NaN. */
  lemma AggregateReadsFirstColumn(queryType: string, rows: seq<Row>, result: NativeResult)
    requires IsAggregate(queryType) && result.rows == Some(rows) && |rows| > 0
    ensures rows[0] == [] ==> ParseResult(queryType, result) == Normalised(Number(NaN))
    ensures rows[0] != [] ==> ParseResult(queryType, result) == Normalised(Number(ToNumber(rows[0][0].1)))
    ensures forall n: nat :: rows[0] != [] && rows[0][0].1 == Str(NatToString(n)) ==>
              ParseResult(queryType, result) == Normalised(Number(Exact(n)))
  {
    forall n: nat | rows[0] != [] && rows[0][0].1 == Str(NatToString(n))
      ensures ParseResult(queryType, result) == Normalised(Number(Exact(n)))
    {
      ToNumberOfRendered(n);
    }
  }

  /** What the parser reads from the result sendNativeQuery returns: only
      `{rows, fields}` has `rows`; an array or `{}` has neither `rows` nor
      `affectedRows`. */
  function AsNativeResult(n: Normalized): (r: NativeResult)
    ensures r.affectedRows == Undefined
    ensures r.rows.Some? <==> n.RowsAndFields?
  {
    match n
    case RowsAndFields(rows, _) => NativeResult(Some(rows), Undefined)
    case _ => NativeResult(None, Undefined)
  }

  /** The result of sendNativeQuery never carries `affectedRows`, so a
      delete parsed from it reports `numRecordsDeleted: undefined`; a
      select gives the first recordset only when a manager was passed. */
  lemma ParseAfterSendNativeQuery(isOrm: bool, driver: Option<DriverResult>)
    ensures var sent := AsNativeResult(NormalizeResult(isOrm, driver));
            ParseResult("delete", sent) == Normalised(NumRecordsDeleted(Undefined))
            && ParseResult("select", sent)
               == Normalised(Rows(if !isOrm && driver.Some? && driver.value.recordset.Some?
                                  then driver.value.recordset else None))
  {
  }
}
