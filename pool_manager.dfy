/** The manager's pools: which pool lib/get-connection.js hands out,
    lib/destroy-manager.js closing every pool, and the release-or-close
    chain of lib/release-connection.js. The driver's `connect`, `close` and
    `release` are methods whose success or failure is an input. */
module PoolManager {
  import opened JsText
  import opened ConnectionCheck

  /** A driver connection pool: whether it is connected and how many of its
      connections are in use (`pool.used.length`). */
  class Pool {
    var connected: bool
    var used: nat

    constructor (connected: bool, used: nat)
      ensures this.connected == connected && this.used == used
    {
      this.connected := connected;
      this.used := used;
    }

    /** `await pool.connect()`: resolves with the pool itself, now
        connected, or rejects and leaves it as it was. */
    method Connect(resolves: bool)
      modifies this
      ensures connected == (old(connected) || resolves) && used == old(used)
    {
      if resolves {
        connected := true;
      }
    }

    /** `pool.close()`. */
    method Close()
      modifies this
      ensures !connected && used == old(used)
    {
      connected := false;
    }
  }

  /** What the tier tests look at in one pool. */
  datatype PoolState = PoolState(connected: bool, used: nat)

  function StatesOf(pools: seq<Pool>): (r: seq<PoolState>)
    reads pools
    ensures |r| == |pools|
    ensures forall k :: 0 <= k < |pools| ==> r[k] == PoolState(pools[k].connected, pools[k].used)
  {
    if pools == [] then []
    else StatesOf(pools[..|pools| - 1]) + [PoolState(pools[|pools| - 1].connected, pools[|pools| - 1].used)]
  }

  /** `states.find(test)`, as the index found. */
  function FindFirst(states: seq<PoolState>, test: PoolState -> bool): (r: Option<nat>)
    ensures r.Some? ==> r.value < |states| && test(states[r.value])
                        && forall j :: 0 <= j < r.value ==> !test(states[j])
    ensures r.None? ==> forall j :: 0 <= j < |states| ==> !test(states[j])
  {
    if states == [] then None
    else if test(states[0]) then Some(0)
    else
      match FindFirst(states[1..], test)
      case None => None
      case Some(k) => Some(k + 1)
  }

  predicate Idle(s: PoolState) { s.connected && s.used == 0 }
  predicate Disconnected(s: PoolState) { !s.connected }
  predicate Light(s: PoolState) { s.connected && s.used < 5 }
  predicate Connected(s: PoolState) { s.connected }

  /** The tier a pool is picked from: (a) an idle connected pool, (b) a
      disconnected pool to connect, (c) a connected pool with fewer than five
      connections in use, (d) any connected pool. */
  datatype Choice = IdlePool(k: nat) | ReconnectPool(k: nat) | LightPool(k: nat) | BusyPool(k: nat) | NoPool

  /** The selection of get-connection, before anything is connected. A
      connect that resolves ends the search at tier (b), so tiers (c) and
      (d) are only reached when every pool is connected. */
  function Choose(states: seq<PoolState>): Choice
  {
    match FindFirst(states, Idle)
    case Some(k) => IdlePool(k)
    case None =>
      match FindFirst(states, Disconnected)
      case Some(k) => ReconnectPool(k)
      case None =>
        match FindFirst(states, Light)
        case Some(k) => LightPool(k)
        case None =>
          match FindFirst(states, Connected)
          case Some(k) => BusyPool(k)
          case None => NoPool
  }

  /** Each tier is used only when the earlier ones find nothing, and picks
      the first pool that passes its test; with no idle and no disconnected
      pool, the busy tier picks the first pool. */
  lemma ChooseTiers(states: seq<PoolState>)
    ensures Choose(states).IdlePool? ==>
              var k := Choose(states).k;
              k < |states| && Idle(states[k]) && forall j :: 0 <= j < k ==> !Idle(states[j])
    ensures Choose(states).ReconnectPool? ==>
              var k := Choose(states).k;
              k < |states| && !states[k].connected && (forall j :: 0 <= j < |states| ==> !Idle(states[j]))
              && forall j :: 0 <= j < k ==> states[j].connected
    ensures Choose(states).LightPool? ==>
              var k := Choose(states).k;
              k < |states| && Light(states[k]) && (forall j :: 0 <= j < |states| ==> states[j].connected && !Idle(states[j]))
              && forall j :: 0 <= j < k ==> !Light(states[j])
    ensures Choose(states).BusyPool? ==>
              Choose(states).k == 0 && |states| > 0 && forall j :: 0 <= j < |states| ==> states[j].connected && states[j].used >= 5
  {
  }

  /** get-connection fails to find a pool only when there is none: every
      pool is either connected or not. */
  lemma ChooseFailsOnlyWithoutPools(states: seq<PoolState>)
    ensures Choose(states) == NoPool <==> states == []
  {
    if states != [] {
      if states[0].connected {
        assert Connected(states[0]);
      } else {
        assert Disconnected(states[0]);
      }
    }
  }

  /** With every pool connected, a pool is always found without connecting
      anything: the idle, light or busy tier picks it. */
  lemma ChooseWhenAllConnected(states: seq<PoolState>)
    requires states != [] && forall j :: 0 <= j < |states| ==> states[j].connected
    ensures Choose(states).IdlePool? || Choose(states).LightPool? || Choose(states).BusyPool?
  {
    assert Connected(states[0]);
  }

  /** How get-connection ends: with a connected pool, with "Cannot acquire a
      pool", or with the rejection of `connect`. */
  datatype GetExit = Acquired(pool: Pool) | CannotAcquire | ConnectRejected

  /** The manager: its list of pools, which no operation here replaces. */
  class Manager {
    var pools: seq<Pool>

    constructor (pools: seq<Pool>)
      ensures this.pools == pools
    {
      this.pools := pools;
    }

    /** get-connection: pick a pool by tier; a disconnected pick is
        connected first. Only that pool can change. */
    method GetConnection(connectResolves: bool) returns (exit: GetExit)
      modifies pools
      ensures var choice := Choose(old(StatesOf(pools)));
              match choice
              case IdlePool(k) => exit == Acquired(pools[k])
              case LightPool(k) => exit == Acquired(pools[k])
              case BusyPool(k) => exit == Acquired(pools[k])
              case ReconnectPool(k) => exit == (if connectResolves then Acquired(pools[k]) else ConnectRejected)
              case NoPool => exit == CannotAcquire
      ensures exit.Acquired? ==> exit.pool in pools && exit.pool.connected
      ensures forall p :: p in pools && (exit.Acquired? ==> p != exit.pool) ==>
                p.connected == old(p.connected) && p.used == old(p.used)
      ensures forall p :: p in pools ==> p.used == old(p.used)
      ensures pools != [] && (forall p :: p in pools ==> old(p.connected)) ==>
                exit.Acquired? && forall p :: p in pools ==> p.connected
    {
      var choice := Choose(StatesOf(pools));
      ChooseTiers(StatesOf(pools));
      if pools != [] && forall p :: p in pools ==> p.connected {
        ChooseWhenAllConnected(StatesOf(pools));
      }
      match choice {
        case IdlePool(k) =>
          exit := Acquired(pools[k]);
        case ReconnectPool(k) =>
          var p := pools[k];
          p.Connect(connectResolves);
          exit := if connectResolves then Acquired(p) else ConnectRejected;
        case LightPool(k) =>
          exit := Acquired(pools[k]);
        case BusyPool(k) =>
          exit := Acquired(pools[k]);
        case NoPool =>
          exit := CannotAcquire;
      }
    }

    /** destroy-manager: `close()` on every pool in list order; the list
        itself is kept and nothing marks the manager as destroyed. */
    method DestroyManager() returns (closed: seq<Pool>)
      modifies pools
      ensures closed == pools
      ensures forall p :: p in pools ==> !p.connected && p.used == old(p.used)
    {
      closed := [];
      for i := 0 to |pools|
        invariant closed == pools[..i]
        invariant forall j :: 0 <= j < i ==> !pools[j].connected
        invariant forall p :: p in pools ==> p.used == old(p.used)
      {
        pools[i].Close();
        closed := closed + [pools[i]];
      }
    }
  }

  /** A driver call that can fail with an error whose `stack` is given. */
  datatype CallOutcome = Succeeds | Fails(stack: string)

  datatype DriverCall = ReleaseCall | CloseCall

  /** How release-connection ends: `success` (with `meta` after a forced
      close), `badConnection`, `error` with its message, or the exception of
      a validation that could not read `manager.pool`. */
  datatype ReleaseExit = Released | ClosedInstead | BadConnection | ReleaseError(message: string) | ValidationThrew

  /** The message of the `error` exit: both stacks, the forced close's
      first. */
  function ReleaseErrorMessage(closeStack: string, releaseStack: string): string
  {
    ReleaseErrorHead + closeStack + ReleaseErrorMiddle + releaseStack
  }

  const ReleaseErrorHead := "Could not release SQL Server connection gracefully, and attempting to forcibly destroy the"
                            + " connection threw an error.  Details:\n=== === ===\n"
  const ReleaseErrorMiddle := "\n\nAnd error details from the original graceful attempt:\n=== === ===\n"

  /** The first line of the TypeError thrown by `manager.pool.release(...)`
      when the pool has no `release` function; the stack frames that follow
      it are not modelled. */
  const ReleaseNotAFunction := "TypeError: inputs.manager.pool.release is not a function"

  /** What calling `manager.pool.release(connection)` does: the driver's
      outcome when the pool has a `release` function, and otherwise a throw. */
  function ReleaseAttempt(p: PoolShape, release: CallOutcome): (r: CallOutcome)
    ensures p.hasRelease ==> r == release
    ensures !p.hasRelease ==> r.Fails? && Includes(r.stack, "is not a function")
  {
    if p.hasRelease then release
    else
      assert OccursAt(ReleaseNotAFunction, "is not a function", 39);
      IncludesAt(ReleaseNotAFunction, "is not a function", 39);
      Fails(ReleaseNotAFunction)
  }

  /** release-connection: validate, then `manager.pool.release(connection)`,
      then on failure `connection.close()`; `calls` lists the driver calls
      made, in order. A pool without `release` passes validation, and its
      release attempt always throws, so it always ends in `close()`. */
  method ReleaseConnection(connectionIsObject: bool, pool: Option<PoolShape>, release: CallOutcome, close: CallOutcome)
    returns (exit: ReleaseExit, calls: seq<DriverCall>)
    ensures connectionIsObject && pool.None? ==> exit == ValidationThrew && calls == []
    ensures !connectionIsObject || (pool.Some? && !(pool.value.hasQuery && pool.value.hasClose)) ==>
              exit == BadConnection && calls == []
    ensures ValidateConnection(connectionIsObject, pool) == Checked(true) ==>
              var attempt := ReleaseAttempt(pool.value, release);
              (attempt == Succeeds ==> exit == Released && calls == [ReleaseCall])
              && (attempt.Fails? ==>
                    (calls == [ReleaseCall, CloseCall]
                     && exit == (if close == Succeeds then ClosedInstead
                                 else ReleaseError(ReleaseErrorMessage(close.stack, attempt.stack)))))
    ensures ValidateConnection(connectionIsObject, pool) == Checked(true) && !pool.value.hasRelease ==>
              calls == [ReleaseCall, CloseCall] && exit != Released
    ensures exit.ReleaseError? ==>
              (pool.Some? && close.Fails?
               && Includes(exit.message, close.stack)
               && Includes(exit.message, ReleaseAttempt(pool.value, release).stack))
  {
    var valid := ValidateConnection(connectionIsObject, pool);
    if valid.PoolMissing? {
      exit, calls := ValidationThrew, [];
    } else if !valid.ok {
      if connectionIsObject {
        ValidateConnectionMeans(connectionIsObject, pool.value);
      }
      exit, calls := BadConnection, [];
    } else {
      exit, calls := ReleaseOrClose(ReleaseAttempt(pool.value, release), close);
    }
  }

  /** The try/catch chain after validation: release, and close when the
      release fails. */
  method ReleaseOrClose(release: CallOutcome, close: CallOutcome) returns (exit: ReleaseExit, calls: seq<DriverCall>)
    ensures release == Succeeds ==> exit == Released && calls == [ReleaseCall]
    ensures release.Fails? ==>
              calls == [ReleaseCall, CloseCall]
              && exit == (if close == Succeeds then ClosedInstead
                          else ReleaseError(ReleaseErrorMessage(close.stack, release.stack)))
    ensures exit.ReleaseError? ==>
              (release.Fails? && close.Fails?
               && Includes(exit.message, close.stack) && Includes(exit.message, release.stack))
  {
    if release == Succeeds {
      exit, calls := Released, [ReleaseCall];
    } else if close == Succeeds {
      exit, calls := ClosedInstead, [ReleaseCall, CloseCall];
    } else {
      MessageHoldsBothStacks(close.stack, release.stack);
      exit, calls := ReleaseError(ReleaseErrorMessage(close.stack, release.stack)), [ReleaseCall, CloseCall];
    }
  }

  /** Both stacks can be read back from the message. */
  lemma MessageHoldsBothStacks(closeStack: string, releaseStack: string)
    ensures Includes(ReleaseErrorMessage(closeStack, releaseStack), closeStack)
    ensures Includes(ReleaseErrorMessage(closeStack, releaseStack), releaseStack)
  {
    var head := ReleaseErrorHead;
    var middle := ReleaseErrorMiddle;
    assert closeStack[..] == closeStack;
    assert OccursAt(closeStack, closeStack, 0);
    IncludesAt(closeStack, closeStack, 0);
    assert OccursAt(releaseStack, releaseStack, 0);
    IncludesAt(releaseStack, releaseStack, 0);
    IncludesInConcat(head, closeStack, closeStack);
    IncludesInConcat(head + closeStack, middle, closeStack);
    IncludesInConcat(head + closeStack + middle, releaseStack, closeStack);
    IncludesInConcat(head + closeStack + middle, releaseStack, releaseStack);
  }
}
