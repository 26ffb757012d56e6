/** `SwooleTable`: the three overridable table names, table construction from
    a column list, and fail-soft row operations on a table resolved by name on
    the server that `Swoole::getServer()` returns. */
module SwooleTable {
  import opened PhpCore
  import opened SwooleRuntime

  const COLUMN_TYPE_INT := 1
  const COLUMN_TYPE_FLOAT := 2
  const COLUMN_TYPE_STRING := 3

  /** The names as the class starts with them. */
  const DEFAULT_CACHE_TABLE := "tblCache"
  const DEFAULT_LOCK_TABLE := "tblDistributeLock"
  const DEFAULT_RATELIMITER_TABLE := "tblRatelimiter"

  /** The static name fields of `SwooleTable`. Each accessor stores a non-empty
      argument and answers ''; without one it answers the stored name. */
  class SwooleTable {
    var cacheName: string
    var lockName: string
    var limiterName: string

    /** No stored name is ever empty. */
    predicate Valid()
      reads this
    {
      cacheName != "" && lockName != "" && limiterName != ""
    }

    constructor ()
      ensures Valid()
      ensures cacheName == DEFAULT_CACHE_TABLE
      ensures lockName == DEFAULT_LOCK_TABLE
      ensures limiterName == DEFAULT_RATELIMITER_TABLE
    {
      cacheName := DEFAULT_CACHE_TABLE;
      lockName := DEFAULT_LOCK_TABLE;
      limiterName := DEFAULT_RATELIMITER_TABLE;
    }

    /** `cacheTableName(?string $name = null)`. */
    method CacheTableName(name: Option<string>) returns (r: string)
      modifies this`cacheName
      ensures name.Some? && name.value != "" ==> cacheName == name.value && r == ""
      ensures !(name.Some? && name.value != "") ==> cacheName == old(cacheName) && r == cacheName
      ensures lockName == old(lockName) && limiterName == old(limiterName)
      ensures old(Valid()) ==> Valid()
    {
      if name.Some? && name.value != "" {
        cacheName := name.value;
        return "";
      }
      return cacheName;
    }

    /** `distributeLockTableName(?string $name = null)`. */
    method DistributeLockTableName(name: Option<string>) returns (r: string)
      modifies this`lockName
      ensures name.Some? && name.value != "" ==> lockName == name.value && r == ""
      ensures !(name.Some? && name.value != "") ==> lockName == old(lockName) && r == lockName
      ensures cacheName == old(cacheName) && limiterName == old(limiterName)
      ensures old(Valid()) ==> Valid()
    {
      if name.Some? && name.value != "" {
        lockName := name.value;
        return "";
      }
      return lockName;
    }

    /** `ratelimiterTableName(?string $name = null)`. */
    method RatelimiterTableName(name: Option<string>) returns (r: string)
      modifies this`limiterName
      ensures name.Some? && name.value != "" ==> limiterName == name.value && r == ""
      ensures !(name.Some? && name.value != "") ==> limiterName == old(limiterName) && r == limiterName
      ensures cacheName == old(cacheName) && lockName == old(lockName)
      ensures old(Valid()) ==> Valid()
    {
      if name.Some? && name.value != "" {
        limiterName := name.value;
        return "";
      }
      return limiterName;
    }
  }

  /** A client that overrides the cache name reads it back and finds the other
      two names as they were, and no name empty. */
  method OverrideThenRead(names: SwooleTable, n: string)
      returns (r: string, back: string, lock: string, limiter: string)
    requires n != "" && names.Valid()
    modifies names
    ensures names.Valid()
    ensures r == "" && back == n
    ensures lock == old(names.lockName) && limiter == old(names.limiterName)
    ensures lock != "" && limiter != ""
  {
    r := names.CacheTableName(Some(n));
    back := names.CacheTableName(None);
    lock := names.DistributeLockTableName(None);
    limiter := names.RatelimiterTableName(None);
  }

  /** `parseColumnType`: 1 is int, 2 is float, every other code is string. */
  function ParseColumnType(code: int): (t: ColumnType)
    ensures t == TypeInt <==> code == COLUMN_TYPE_INT
    ensures t == TypeFloat <==> code == COLUMN_TYPE_FLOAT
    ensures t == TypeString <==> code != COLUMN_TYPE_INT && code != COLUMN_TYPE_FLOAT
  {
    if code == COLUMN_TYPE_INT then TypeInt
    else if code == COLUMN_TYPE_FLOAT then TypeFloat
    else TypeString
  }

  /** One element of the `$columns` argument of `buildTable`: name, type code
      and the third list element (`Null` when the element has only two). */
  datatype ColumnSpec = ColumnSpec(name: string, typeCode: int, dataSize: Value)

  /** The size passed to `column()`: only a positive int third element is. */
  function DeclaredSize(dataSize: Value): (size: Option<int>)
    ensures size.Some? <==> dataSize.Int? && dataSize.i > 0
    ensures size.Some? ==> size.value == dataSize.i
  {
    if dataSize.Int? && dataSize.i > 0 then Some(dataSize.i) else None
  }

  /** The column-adding loop of `buildTable`, in order. */
  method DeclareColumns(specs: seq<ColumnSpec>) returns (cols: seq<Column>)
    ensures |cols| == |specs|
    ensures forall k :: 0 <= k < |specs| ==>
      cols[k].name == specs[k].name &&
      cols[k].ctype == ParseColumnType(specs[k].typeCode) &&
      cols[k].size == DeclaredSize(specs[k].dataSize)
  {
    cols := [];
    var i := 0;
    while i < |specs|
      invariant 0 <= i <= |specs|
      invariant |cols| == i
      invariant forall k :: 0 <= k < i ==>
        cols[k].name == specs[k].name &&
        cols[k].ctype == ParseColumnType(specs[k].typeCode) &&
        cols[k].size == DeclaredSize(specs[k].dataSize)
    {
      var spec := specs[i];
      var ctype := ParseColumnType(spec.typeCode);
      if spec.dataSize.Int? && spec.dataSize.i > 0 {
        cols := cols + [Column(spec.name, ctype, Some(spec.dataSize.i))];
      } else {
        cols := cols + [Column(spec.name, ctype, None)];
      }
      i := i + 1;
    }
  }

  /** `buildTable($columns, $size)`. `allocates` is whether the runtime grants
      the shared memory; when it does not, construction throws, modelled as
      `null`. */
  method BuildTable(specs: seq<ColumnSpec>, size: int, allocates: bool) returns (t: Table?)
    ensures t != null <==> allocates
    ensures t != null ==> fresh(t) && t.capacity == size && t.rows == map[]
    ensures t != null ==> |t.columns| == |specs| && forall k :: 0 <= k < |specs| ==>
      t.columns[k].name == specs[k].name &&
      t.columns[k].ctype == ParseColumnType(specs[k].typeCode) &&
      t.columns[k].size == DeclaredSize(specs[k].dataSize)
  {
    if !allocates {
      return null;
    }
    var cols := DeclareColumns(specs);
    t := new Table(size, cols);
  }

  /** `getTable($name)` against the server `Swoole::getServer()` returns:
      null without a server, without a property of that name, or when the
      property is not a table. */
  function GetTable(server: Server?, name: string): (t: Table?)
    reads server
    ensures t == null <==> server == null || name !in server.members || !server.members[name].TableMember?
    ensures t != null ==> t == server.members[name].table
  {
    if server == null || name !in server.members then null
    else match server.members[name]
      case TableMember(table) => table
      case Plain(_) => null
  }

  /** The objects a row operation on `name` may change: the resolved table, if any. */
  function Resolved(server: Server?, name: string): set<Table>
    reads server
  {
    var t := GetTable(server, name);
    if t == null then {} else {t}
  }

  /** `exists($tableName, $key)`: false when the table is absent. */
  method Exists(server: Server?, engine: Engine, tableName: string, key: string) returns (b: bool)
    ensures GetTable(server, tableName) == null ==> !b
    ensures GetTable(server, tableName) != null ==> b == engine.exist(GetTable(server, tableName).rows, key)
  {
    var table := GetTable(server, tableName);
    if table == null {
      return false;
    }
    b := engine.exist(table.rows, key);
  }

  /** `getValue($tableName, $key)`: the row when the table yields an array,
      null when it yields anything else or the table is absent. */
  method GetValue(server: Server?, engine: Engine, tableName: string, key: string) returns (row: Option<PhpArray>)
    ensures GetTable(server, tableName) == null ==> row.None?
    ensures GetTable(server, tableName) != null ==>
      (row.Some? <==> engine.get(GetTable(server, tableName).rows, key).Arr?)
    ensures row.Some? ==> engine.get(GetTable(server, tableName).rows, key) == Arr(row.value)
  {
    var table := GetTable(server, tableName);
    if table == null {
      return None;
    }
    var value := engine.get(table.rows, key);
    if value.Arr? {
      row := Some(value.entries);
    } else {
      row := None;
    }
  }

  /** `remove($tableName, $key)`: `del` on the resolved table, nothing otherwise. */
  method Remove(server: Server?, engine: Engine, tableName: string, key: string)
    modifies Resolved(server, tableName)
    ensures GetTable(server, tableName) == old(GetTable(server, tableName))
    ensures var t := GetTable(server, tableName); t != null ==> t.rows == engine.del(old(t.rows), key)
    ensures server != null ==> forall n ::
      (n in server.members && server.members[n].TableMember? && server.members[n].table != GetTable(server, tableName)) ==>
      server.members[n].table.rows == old(server.members[n].table.rows)
  {
    var table := GetTable(server, tableName);
    if table == null {
      return;
    }
    table.rows := engine.del(table.rows, key);
  }

  /** `setValue($tableName, $key, $value)`: `set` on the resolved table, nothing otherwise. */
  method SetValue(server: Server?, engine: Engine, tableName: string, key: string, value: PhpArray)
    modifies Resolved(server, tableName)
    ensures GetTable(server, tableName) == old(GetTable(server, tableName))
    ensures var t := GetTable(server, tableName); t != null ==> t.rows == engine.put(old(t.rows), key, value)
    ensures server != null ==> forall n ::
      (n in server.members && server.members[n].TableMember? && server.members[n].table != GetTable(server, tableName)) ==>
      server.members[n].table.rows == old(server.members[n].table.rows)
  {
    var table := GetTable(server, tableName);
    if table == null {
      return;
    }
    table.rows := engine.put(table.rows, key, value);
  }

  /** `incr($tableName, $key, $columnName, $num)`: `incr` on the resolved table, nothing otherwise. */
  method Incr(server: Server?, engine: Engine, tableName: string, key: string, column: string, num: Value)
    modifies Resolved(server, tableName)
    ensures GetTable(server, tableName) == old(GetTable(server, tableName))
    ensures var t := GetTable(server, tableName); t != null ==> t.rows == engine.incr(old(t.rows), key, column, num)
    ensures server != null ==> forall n ::
      (n in server.members && server.members[n].TableMember? && server.members[n].table != GetTable(server, tableName)) ==>
      server.members[n].table.rows == old(server.members[n].table.rows)
  {
    var table := GetTable(server, tableName);
    if table == null {
      return;
    }
    table.rows := engine.incr(table.rows, key, column, num);
  }

  /** `decr($tableName, $key, $columnName, $num)`: `decr` on the resolved table, nothing otherwise. */
  method Decr(server: Server?, engine: Engine, tableName: string, key: string, column: string, num: Value)
    modifies Resolved(server, tableName)
    ensures GetTable(server, tableName) == old(GetTable(server, tableName))
    ensures var t := GetTable(server, tableName); t != null ==> t.rows == engine.decr(old(t.rows), key, column, num)
    ensures server != null ==> forall n ::
      (n in server.members && server.members[n].TableMember? && server.members[n].table != GetTable(server, tableName)) ==>
      server.members[n].table.rows == old(server.members[n].table.rows)
  {
    var table := GetTable(server, tableName);
    if table == null {
      return;
    }
    table.rows := engine.decr(table.rows, key, column, num);
  }

  /** Whatever the engine, an operation against an absent table changes no table
      and reads as empty. */
  method AbsentTableIsEmpty(server: Server?, engine: Engine, tableName: string, key: string, row: PhpArray)
      returns (b: bool, v: Option<PhpArray>)
    requires GetTable(server, tableName) == null
    ensures server != null ==> forall n :: n in server.members && server.members[n].TableMember? ==>
      server.members[n].table.rows == old(server.members[n].table.rows)
    ensures !b && v.None?
  {
    SetValue(server, engine, tableName, key, row);
    Incr(server, engine, tableName, key, "n", Int(1));
    Decr(server, engine, tableName, key, "n", Int(1));
    Remove(server, engine, tableName, key);
    b := Exists(server, engine, tableName, key);
    v := GetValue(server, engine, tableName, key);
  }

  /** If the engine's `get` returns what `set` stored, a `setValue` followed by a
      `getValue` on an attached table reads the row back. */
  method SetThenGet(server: Server?, engine: Engine, tableName: string, key: string, row: PhpArray)
      returns (back: Option<PhpArray>)
    requires forall rows, k, r :: engine.get(engine.put(rows, k, r), k) == Arr(r)
    modifies Resolved(server, tableName)
    ensures GetTable(server, tableName) != null ==> back == Some(row)
    ensures GetTable(server, tableName) == null ==> back.None?
  {
    SetValue(server, engine, tableName, key, row);
    back := GetValue(server, engine, tableName, key);
  }

  /** If the engine's `decr` undoes its `incr`, an `incr` followed by a `decr`
      of the same amount leaves every row as it was. */
  method IncrThenDecr(server: Server?, engine: Engine, tableName: string, key: string, column: string, num: Value)
    requires forall rows, k, c, n :: engine.decr(engine.incr(rows, k, c, n), k, c, n) == rows
    modifies Resolved(server, tableName)
    ensures var t := GetTable(server, tableName); t != null ==> t.rows == old(t.rows)
  {
    Incr(server, engine, tableName, key, column, num);
    Decr(server, engine, tableName, key, column, num);
  }
}
