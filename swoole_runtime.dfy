/** The objects of the hosting runtime that the core talks to: the server
    handle, to which shared tables are attached as named members, and the
    shared tables themselves. What a `\Swoole\Table` does with its rows is not
    visible in the source, so its primitives are an `Engine` of arbitrary
    functions and everything proved about the wrappers holds for every engine. */
module SwooleRuntime {
  import opened PhpCore

  datatype ColumnType = TypeInt | TypeFloat | TypeString

  /** A declared table column; `size` is passed only for sized columns. */
  datatype Column = Column(name: string, ctype: ColumnType, size: Option<int>)

  /** The rows of a table: row key to the row as a PHP array. */
  type Rows = map<string, PhpArray>

  /** A created `\Swoole\Table`: capacity and columns are fixed at creation,
      the rows change in place. */
  class Table {
    const capacity: int
    const columns: seq<Column>
    var rows: Rows

    constructor (capacity: int, columns: seq<Column>)
      ensures this.capacity == capacity && this.columns == columns && rows == map[]
    {
      this.capacity := capacity;
      this.columns := columns;
      rows := map[];
    }
  }

  /** The value of a server property: a shared table or any other value. */
  datatype Member = TableMember(table: Table) | Plain(value: Value)

  /** The server object. `workerId` and `taskworker` are its `worker_id` and
      `taskworker` properties (`None` when the property does not exist);
      `members` are its other properties, among them the attached tables. */
  class Server {
    const workerId: Option<Value>
    const taskworker: Option<Value>
    var members: map<string, Member>

    constructor (workerId: Option<Value>, taskworker: Option<Value>, members: map<string, Member>)
      ensures this.workerId == workerId && this.taskworker == taskworker && this.members == members
    {
      this.workerId := workerId;
      this.taskworker := taskworker;
      this.members := members;
    }
  }

  /** The primitives of `\Swoole\Table`: `exist`, `get`, `set` (here `put`), `del`, `incr`
      and `decr`, as functions of the rows. */
  datatype Engine = Engine(
    exist: (Rows, string) -> bool,
    get: (Rows, string) -> Value,
    put: (Rows, string, PhpArray) -> Rows,
    del: (Rows, string) -> Rows,
    incr: (Rows, string, string, Value) -> Rows,
    decr: (Rows, string, string, Value) -> Rows)
}
