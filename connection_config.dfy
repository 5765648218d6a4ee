/** The connection-config normalisation shared by lib/create-manager.js and
    lib/create-pool.js: the client settings handed to the driver's pool,
    the `options` object forced to `enableArithAbort`, the malformed exit,
    and the records both operations return. Constructing and connecting the
    driver's pool is foreign; the pool is represented by the settings it is
    built from. */
module ConnectionConfig {
  import opened JsText
  import opened JsValue

  /** The caller's `options` object. The normalisation keeps a reference to
      it, so its update is seen by everyone holding it. */
  class Options {
    var entries: map<string, Value>

    constructor (entries: map<string, Value>)
      ensures this.entries == entries
    {
      this.entries := entries;
    }

    /** `options.enableArithAbort = true`. */
    method ForceArithAbort()
      modifies this
      ensures entries == old(entries)["enableArithAbort" := Bool(true)]
    {
      entries := entries["enableArithAbort" := Bool(true)];
    }
  }

  /** The `connectionConfig` input: `null` or `undefined`, whose properties
      cannot be read, or a dictionary with the fields read here (`options`
      is None when it is falsy). */
  datatype ConfigInput =
    | Unreadable
    | Fields(port: Value, host: Value, options: Option<Options>, user: Value, password: Value, database: Value)

  /** The plain settings of the driver config; a field left unset is None. */
  datatype ClientSettings = ClientSettings(port: JsNumber, server: Value, user: Option<Value>, password: Option<Value>,
                                           database: Option<string>)

  /** The whole driver config: the settings and the `options` object. */
  datatype ClientConfig = ClientConfig(settings: ClientSettings, options: Options)

  const DefaultPort := 1433
  const DefaultHost := "localhost"

  /** The settings built from a readable config. */
  function Settings(port: Value, host: Value, user: Value, password: Value, database: Value): (r: ClientSettings)
    ensures Truthy(r.server)
    ensures r.user.Some? <==> Truthy(user)
    ensures r.password.Some? <==> Truthy(password)
    ensures r.database.Some? <==> database.Str?
  {
    ClientSettings(
      if Truthy(port) then ToNumber(port) else Exact(DefaultPort),
      if Truthy(host) then host else Str(DefaultHost),
      if Truthy(user) then Some(user) else None,
      if Truthy(password) then Some(password) else None,
      if database.Str? then Some(database.s) else None)
  }

  /** A config that gives no port, no host and no credentials connects to
      port 1433 on `localhost`; whatever is given and truthy is kept. */
  lemma SettingsDefaults(port: Value, host: Value, user: Value, password: Value, database: Value)
    ensures var r := Settings(port, host, user, password, database);
            (!Truthy(port) ==> r.port == Exact(1433))
            && (!Truthy(host) ==> r.server == Str("localhost"))
            && (Truthy(host) ==> r.server == host)
            && (Truthy(user) ==> r.user == Some(user))
            && (Truthy(password) ==> r.password == Some(password))
            && (database.Str? ==> r.database == Some(database.s))
  {
  }

  /** A port written in decimal, as a number or as text, is the port
      used; `0` as a number is falsy and falls back to 1433, while `"0"` as
      text is truthy and gives port 0. */
  lemma SettingsPort(n: nat, host: Value, user: Value, password: Value, database: Value)
    ensures n > 0 ==> Settings(Num(n), host, user, password, database).port == Exact(n)
    ensures Settings(Str(NatToString(n)), host, user, password, database).port == Exact(n)
    ensures Settings(Num(0), host, user, password, database).port == Exact(1433)
  {
    ToNumberOfRendered(n);
    assert NatToString(n) != "" by {
      NatToStringRoundTrip(n);
    }
  }

  /** The try block of both operations: None when reading the config throws,
      otherwise the driver config. The caller's `options`, when given, is
      the object used and is updated in place. */
  method NormalizeConfig(config: ConfigInput) returns (r: Option<ClientConfig>)
    modifies if config.Fields? && config.options.Some? then {config.options.value} else {}
    ensures r.None? <==> config.Unreadable?
    ensures config.Fields? ==>
              r.Some?
              && r.value.settings == Settings(config.port, config.host, config.user, config.password, config.database)
              && "enableArithAbort" in r.value.options.entries && r.value.options.entries["enableArithAbort"] == Bool(true)
              && (config.options.Some? ==>
                    r.value.options == config.options.value
                    && r.value.options.entries == old(config.options.value.entries)["enableArithAbort" := Bool(true)])
              && (config.options.None? ==>
                    fresh(r.value.options) && r.value.options.entries == map["enableArithAbort" := Bool(true)])
  {
    if config.Unreadable? {
      return None;
    }
    var settings := Settings(config.port, config.host, config.user, config.password, config.database);
    var options: Options;
    if config.options.Some? {
      options := config.options.value;
    } else {
      options := new Options(map[]);
    }
    options.ForceArithAbort();
    r := Some(ClientConfig(settings, options));
  }

  /** The message of the malformed exit: the config as JSON, then the
      details of the error thrown while reading it. */
  function MalformedMessage(configJson: string, readError: string): string
  {
    MalformedHead + configJson + MalformedMiddle + readError
  }

  const MalformedHead := "Provided value (`"
  const MalformedMiddle := "`) is not a valid Sql Server connection string." + " Error" + " details: "

  /** Both the offending config and the original error can be read back
      from the message. */
  lemma MalformedMessageHoldsBoth(configJson: string, readError: string)
    ensures Includes(MalformedMessage(configJson, readError), configJson)
    ensures Includes(MalformedMessage(configJson, readError), readError)
  {
    var head, middle := MalformedHead, MalformedMiddle;
    assert OccursAt(configJson, configJson, 0);
    IncludesAt(configJson, configJson, 0);
    assert OccursAt(readError, readError, 0);
    IncludesAt(readError, readError, 0);
    IncludesInConcat(head, configJson, configJson);
    IncludesInConcat(head + configJson, middle, configJson);
    IncludesInConcat(head + configJson + middle, readError, configJson);
    IncludesInConcat(head + configJson + middle, readError, readError);
  }

  /** The manager record: the pool and the config exactly as passed in. */
  datatype ManagerRecord = ManagerRecord(pool: ClientConfig, connectionConfig: ConfigInput)

  datatype CreateManagerExit = ManagerCreated(manager: ManagerRecord, meta: Value) | ManagerMalformed(message: string, meta: Value)

  /** create-manager: normalise, then build `{pool, connectionConfig}`; both
      exits pass `meta` through. The JSON rendering of the config and the
      text of the read error are inputs. */
  method CreateManager(config: ConfigInput, meta: Value, configJson: string, readError: string)
    returns (exit: CreateManagerExit)
    modifies if config.Fields? && config.options.Some? then {config.options.value} else {}
    ensures exit.meta == meta
    ensures config.Unreadable? ==> exit == ManagerMalformed(MalformedMessage(configJson, readError), meta)
    ensures config.Fields? ==>
              exit.ManagerCreated? && exit.manager.connectionConfig == config
              && exit.manager.pool.settings == Settings(config.port, config.host, config.user, config.password, config.database)
              && "enableArithAbort" in exit.manager.pool.options.entries && exit.manager.pool.options.entries["enableArithAbort"] == Bool(true)
              && (config.options.Some? ==>
                    exit.manager.pool.options == config.options.value
                    && exit.manager.pool.options.entries == old(config.options.value.entries)["enableArithAbort" := Bool(true)])
              && (config.options.None? ==>
                    fresh(exit.manager.pool.options) && exit.manager.pool.options.entries == map["enableArithAbort" := Bool(true)])
  {
    var client := NormalizeConfig(config);
    if client.None? {
      return ManagerMalformed(MalformedMessage(configJson, readError), meta);
    }
    exit := ManagerCreated(ManagerRecord(client.value, config), meta);
  }

  /** The exits of create-pool: the pool, malformed, or failed; both
      failures report the config itself as `meta`. */
  datatype CreatePoolExit =
    | PoolCreated(pool: ClientConfig)
    | PoolMalformed(message: string, meta: ConfigInput)
    | ConnectFailed(error: Value, meta: ConfigInput)

  /** create-pool: normalise, then `pool.connect()`, whose rejection (None
      when it resolves) is an input. A rejection with a falsy error is
      ignored by the handler and the pool is returned. */
  method CreatePool(config: ConfigInput, rejection: Option<Value>, configJson: string, readError: string)
    returns (exit: CreatePoolExit)
    modifies if config.Fields? && config.options.Some? then {config.options.value} else {}
    ensures config.Unreadable? ==> exit == PoolMalformed(MalformedMessage(configJson, readError), config)
    ensures config.Fields? && rejection.Some? && Truthy(rejection.value) ==> exit == ConnectFailed(rejection.value, config)
    ensures config.Fields? && !(rejection.Some? && Truthy(rejection.value)) ==>
              exit.PoolCreated?
              && exit.pool.settings == Settings(config.port, config.host, config.user, config.password, config.database)
              && "enableArithAbort" in exit.pool.options.entries && exit.pool.options.entries["enableArithAbort"] == Bool(true)
              && (config.options.Some? ==>
                    exit.pool.options == config.options.value
                    && exit.pool.options.entries == old(config.options.value.entries)["enableArithAbort" := Bool(true)])
              && (config.options.None? ==>
                    fresh(exit.pool.options) && exit.pool.options.entries == map["enableArithAbort" := Bool(true)])
  {
    var client := NormalizeConfig(config);
    if client.None? {
      return PoolMalformed(MalformedMessage(configJson, readError), config);
    }
    if rejection.Some? && Truthy(rejection.value) {
      return ConnectFailed(rejection.value, config);
    }
    exit := PoolCreated(client.value);
  }

  /** What the pool's `error` listener passes to `onUnexpectedFailure`: the
      error itself, or a default error when it is falsy. */
  datatype FailureReport = Reported(err: Value) | ConnectionsLost(message: string)

  const ConnectionsLostMessage := "One or more pooled connections to SQL Server database were lost. Did the database"
                                  + " server go offline?"

  /** The listener: nothing when no notifier was given. */
  function OnPoolError(notifierGiven: bool, err: Value): (r: Option<FailureReport>)
    ensures r.Some? <==> notifierGiven
    ensures r.Some? ==> (r.value.Reported? <==> Truthy(err))
  {
    if !notifierGiven then None
    else if Truthy(err) then Some(Reported(err))
    else Some(ConnectionsLost(ConnectionsLostMessage))
  }

  /** The notifier never receives a falsy error. */
  lemma NotifiedErrorIsTruthy(err: Value)
    ensures OnPoolError(true, err).value.Reported? ==> Truthy(OnPoolError(true, err).value.err)
    ensures OnPoolError(true, err).value.ConnectionsLost? ==> OnPoolError(true, err).value.message != ""
  {
  }
}
