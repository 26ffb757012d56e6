/** `Swoole`: the process-wide server handle, the worker / task-worker /
    coroutine context read from it, the scope key built from it, and the
    attachment of fixed-schema tables to a server. */
module Swoole {
  import opened PhpCore
  import opened PhpStrings
  import opened SwooleRuntime
  import opened SwooleTable

  /** The static `$server` of `Swoole`. `setServer` accepts any value; every
      reader tests it with `is_object`, so a non-object is modelled as null. */
  class Swoole {
    var server: Server?

    constructor ()
      ensures server == null
    {
      server := null;
    }

    /** `setServer($server)`. */
    method SetServer(s: Server?)
      modifies this
      ensures server == s
    {
      server := s;
    }

    /** `getServer()`. */
    function GetServer(): Server?
      reads this
    {
      server
    }
  }

  /** `getWorkerId()` on the current server: the cast `worker_id` when it is
      non-negative, -1 otherwise (no server, no property, negative id). */
  function GetWorkerId(server: Server?, conv: Conversions): (id: int)
    ensures id >= -1
    ensures id >= 0 <==> server != null && server.workerId.Some? && conv.toInt(server.workerId.value) >= 0
    ensures id >= 0 ==> id == conv.toInt(server.workerId.value)
  {
    if server == null || server.workerId.None? then -1
    else
      var workerId := conv.toInt(server.workerId.value);
      if workerId >= 0 then workerId else -1
  }

  /** `inTaskWorker()`: the cast `taskworker` property, false without a worker
      id or without the property. */
  function InTaskWorker(server: Server?, conv: Conversions): (b: bool)
    ensures b <==> (server != null && GetWorkerId(server, conv) >= 0 &&
                    server.taskworker.Some? && conv.toBoolean(server.taskworker.value))
  {
    if GetWorkerId(server, conv) < 0 then false
    else if server == null || server.taskworker.None? then false
    else conv.toBoolean(server.taskworker.value)
  }

  /** What `\Swoole\Coroutine::getCid()` did: returned a value or threw. */
  datatype CidProbe = Returned(cid: Value) | Threw

  /** `getCoroutineId()`: the id when the runtime returns a non-negative int,
      -1 otherwise, a thrown exception included. */
  function GetCoroutineId(probe: CidProbe): (id: int)
    ensures id >= -1
    ensures id >= 0 <==> probe.Returned? && probe.cid.Int? && probe.cid.i >= 0
    ensures id >= 0 ==> id == probe.cid.i
  {
    match probe
    case Threw => -1
    case Returned(cid) => if cid.Int? && cid.i >= 0 then cid.i else -1
  }

  /** `inCoroutineMode($notTaskWorker)`: inside a coroutine and, when asked,
      not in a task worker. */
  function InCoroutineMode(server: Server?, conv: Conversions, probe: CidProbe, notTaskWorker: bool): (b: bool)
    ensures b <==> GetCoroutineId(probe) >= 0 && (!notTaskWorker || !InTaskWorker(server, conv))
    ensures !notTaskWorker ==> (b <==> GetCoroutineId(probe) >= 0)
  {
    if GetCoroutineId(probe) < 0 then false
    else !notTaskWorker || !InTaskWorker(server, conv)
  }

  /** `buildGlobalVarKey(?int $workerId)`: "worker<id>" for a given
      non-negative id; otherwise the current worker id decides, and the key is
      "noworker" exactly when that id is negative. */
  function BuildGlobalVarKey(workerId: Option<int>, server: Server?, conv: Conversions): (key: string)
    ensures workerId.Some? && workerId.value >= 0 ==> key == "worker" + IntToDecimal(workerId.value)
    ensures !(workerId.Some? && workerId.value >= 0) ==>
      (key == "noworker" <==> GetWorkerId(server, conv) < 0)
    ensures !(workerId.Some? && workerId.value >= 0) && GetWorkerId(server, conv) >= 0 ==>
      key == "worker" + IntToDecimal(GetWorkerId(server, conv))
  {
    var id := if workerId.None? || workerId.value < 0 then GetWorkerId(server, conv) else workerId.value;
    if id >= 0 then
      var key := "worker" + IntToDecimal(id);
      assert key[0] == 'w';
      key
    else "noworker"
  }

  /** A table layout: the `$columns` list and the capacity handed to `buildTable`. */
  datatype Schema = Schema(columns: seq<ColumnSpec>, capacity: int)

  const CACHE_SCHEMA := Schema(
    [ColumnSpec("value", COLUMN_TYPE_STRING, Int(1024 * 4)),
     ColumnSpec("expiry", COLUMN_TYPE_INT, Null)],
    4096)

  const POOL_SCHEMA := Schema(
    [ColumnSpec("poolId", COLUMN_TYPE_STRING, Int(128)),
     ColumnSpec("currentActive", COLUMN_TYPE_INT, Null),
     ColumnSpec("idleCheckRunning", COLUMN_TYPE_INT, Null),
     ColumnSpec("lastUsedAt", COLUMN_TYPE_STRING, Int(64))],
    2048)

  const WS_SCHEMA := Schema(
    [ColumnSpec("fd", COLUMN_TYPE_INT, Null),
     ColumnSpec("jwtClaims", COLUMN_TYPE_STRING, Int(512)),
     ColumnSpec("lastPongAt", COLUMN_TYPE_STRING, Int(64))],
    16 * 1024)

  /** The `switch` of `withTable`, its cases tried in order: the cache name,
      the pool name, the websocket name. There is no case for the lock or
      rate-limiter tables. */
  function SchemaFor(tableName: string, cacheName: string, poolName: string, wsName: string): (s: Option<Schema>)
    ensures tableName == cacheName ==> s == Some(CACHE_SCHEMA)
    ensures tableName != cacheName && tableName == poolName ==> s == Some(POOL_SCHEMA)
    ensures tableName != cacheName && tableName != poolName && tableName == wsName ==> s == Some(WS_SCHEMA)
    ensures s.None? <==> tableName != cacheName && tableName != poolName && tableName != wsName
  {
    if tableName == cacheName then Some(CACHE_SCHEMA)
    else if tableName == poolName then Some(POOL_SCHEMA)
    else if tableName == wsName then Some(WS_SCHEMA)
    else None
  }

  /** `withTable($server, $tableName)`: builds the table the name selects and
      attaches it under that name. Nothing happens without a server, for the
      empty name, for a name no case selects, or when building fails (the
      exception is swallowed). An existing member is overwritten. The pool and
      websocket names are parameters: the accessors `withTable` calls for them
      do not exist in `SwooleTable`. */
  method WithTable(server: Server?, tableName: string, names: SwooleTable,
                   poolName: string, wsName: string, allocates: bool)
    modifies server
    ensures var s := SchemaFor(tableName, names.cacheName, poolName, wsName);
      server != null && tableName != "" && s.Some? && allocates ==>
        tableName in server.members && server.members[tableName].TableMember? &&
        server.members == old(server.members)[tableName := server.members[tableName]] &&
        var t := server.members[tableName].table;
        fresh(t) && t.capacity == s.value.capacity && t.rows == map[] &&
        |t.columns| == |s.value.columns| &&
        forall k :: 0 <= k < |t.columns| ==>
          t.columns[k].name == s.value.columns[k].name &&
          t.columns[k].ctype == ParseColumnType(s.value.columns[k].typeCode) &&
          t.columns[k].size == DeclaredSize(s.value.columns[k].dataSize)
    ensures !(server != null && tableName != "" && SchemaFor(tableName, names.cacheName, poolName, wsName).Some? && allocates) ==>
      server == null || server.members == old(server.members)
  {
    if server == null || tableName == "" {
      return;
    }
    var schema := SchemaFor(tableName, names.cacheName, poolName, wsName);
    if schema.None? {
      return;
    }
    var table := BuildTable(schema.value.columns, schema.value.capacity, allocates);
    if table != null {
      server.members := server.members[tableName := TableMember(table)];
    }
  }

  /** The attached cache table has capacity 4096, a string column `value` of
      4096 bytes and an unsized int column `expiry`. */
  lemma CacheSchemaColumns()
    ensures CACHE_SCHEMA.capacity == 4096
    ensures DeclaredSize(CACHE_SCHEMA.columns[0].dataSize) == Some(4096)
    ensures ParseColumnType(CACHE_SCHEMA.columns[0].typeCode) == TypeString
    ensures DeclaredSize(CACHE_SCHEMA.columns[1].dataSize).None?
    ensures ParseColumnType(CACHE_SCHEMA.columns[1].typeCode) == TypeInt
  {
  }

  /** How the `switch` of `withTable` behaves as written: the second `case`
      calls `SwooleTable::poolTableName()`, which is not defined, so every name
      other than the cache name ends in an undefined-method error. */
  datatype Dispatch = Selected(schema: Schema) | UndefinedMethod(name: string)

  function DispatchAsWritten(tableName: string, cacheName: string): (d: Dispatch)
    ensures tableName == cacheName <==> d == Selected(CACHE_SCHEMA)
    ensures tableName != cacheName ==> d == UndefinedMethod("poolTableName")
  {
    if tableName == cacheName then Selected(CACHE_SCHEMA) else UndefinedMethod("poolTableName")
  }

  /** With the default cache name, `withTable($server, 'tblPool')` raises an
      error as written, while the intended dispatch, with the pool name
      supplied, selects the pool schema. */
  lemma PoolNameUnreachableAsWritten()
    ensures DispatchAsWritten("tblPool", DEFAULT_CACHE_TABLE) == UndefinedMethod("poolTableName")
    ensures SchemaFor("tblPool", DEFAULT_CACHE_TABLE, "tblPool", "tblWs") == Some(POOL_SCHEMA)
  {
  }
}
