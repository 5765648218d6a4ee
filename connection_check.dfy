/** lib/private/validate-connection.js: the shape test a connection and its
    manager must pass before a query or a release. Only the manager's pool
    is inspected; of the connection itself only that it is an object. */
module ConnectionCheck {
  import opened JsText

  /** Which members of `manager.pool` are functions. */
  datatype PoolShape = PoolShape(hasQuery: bool, hasClose: bool, hasRelease: bool)

  /** The test's result, or the exception thrown when `manager.pool` is
      missing (`undefined.query`); the `&&` chain reads the pool only once
      the connection has proved to be an object. */
  datatype Validation = Checked(ok: bool) | PoolMissing

  /** `isObject(connection) && isFunction(pool.query) && isFunction(pool.close)
      && (isFunction(pool.release) || isFunction(pool.close))`. */
  function ValidateConnection(connectionIsObject: bool, pool: Option<PoolShape>): (r: Validation)
    ensures r == PoolMissing <==> connectionIsObject && pool.None?
    ensures !connectionIsObject ==> r == Checked(false)
  {
    if !connectionIsObject then Checked(false)
    else if pool.None? then PoolMissing
    else
      var p := pool.value;
      Checked(connectionIsObject && p.hasQuery && p.hasClose && (p.hasRelease || p.hasClose))
  }

  /** The test holds exactly when the connection is an object and the pool
      has `query` and `close`: the `release || close` disjunct is implied by
      the `close` test and never changes the outcome. */
  lemma ValidateConnectionMeans(connectionIsObject: bool, p: PoolShape)
    ensures ValidateConnection(connectionIsObject, Some(p)).ok <==> connectionIsObject && p.hasQuery && p.hasClose
    ensures ValidateConnection(connectionIsObject, Some(p)) == ValidateConnection(connectionIsObject, Some(p.(hasRelease := !p.hasRelease)))
  {
  }
}
