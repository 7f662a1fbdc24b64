/** The ledger the chaincode runs against, reduced to two immutable maps: the
    key/value world state and the named tables of positional rows. Which ledger
    calls fail is an input (`Faults`), so every operation is a pure function of
    the state, the faults and its arguments. */
module Store {
  import opened Base

  /** Go's `string` and `[]byte` share one representation here: a sequence of
      bytes, one `char` per byte. */
  type Bytes = string

  /** The key/value world state. A key that is absent reads as the empty value. */
  type State = map<string, Bytes>

  /** Which ledger calls fail in this transaction: reads and writes of state
      keys, creation of named tables, and row writes addressed to a row key. */
  datatype Faults = Faults(
    readFails: set<string>,
    writeFails: set<string>,
    createFails: set<string>,
    rowFails: set<string>)

  /** The faults of a transaction in which every ledger call succeeds. */
  const NoFaults := Faults({}, {}, {}, {})

  /** The stored value of `key`; an absent key reads as nil, that is, empty. */
  function Lookup(st: State, key: string): Bytes {
    if key in st then st[key] else ""
  }

  /** `stub.GetState(key)`. */
  function GetState(st: State, f: Faults, key: string): (r: Result<Bytes>)
    ensures r.Failure? <==> key in f.readFails
    ensures r.Success? ==> r.value == Lookup(st, key)
  {
    if key in f.readFails then Failure(LedgerFailed("GetState")) else Success(Lookup(st, key))
  }

  /** `stub.PutState(key, value)`: on success exactly `key` changes. */
  function PutState(st: State, f: Faults, key: string, value: Bytes): (r: Result<State>)
    ensures r.Failure? <==> key in f.writeFails
    ensures r.Success? ==> Lookup(r.value, key) == value
    ensures r.Success? ==> forall k :: k != key ==> Lookup(r.value, k) == Lookup(st, k)
  {
    if key in f.writeFails then Failure(LedgerFailed("PutState")) else Success(st[key := value])
  }

  /** The two column types a table schema can declare. */
  datatype ColumnType = STRING | BYTES

  /** One entry of a table schema, in declaration order. */
  datatype ColumnDef = ColumnDef(name: string, ctype: ColumnType, key: bool)

  /** A table cell: the protobuf `oneof` of a string or a byte value. */
  datatype Column = StrCol(str: string) | BytesCol(bytes: Bytes)

  /** A row is its columns, in position order. */
  type Row = seq<Column>

  /** The protobuf `oneof` getter `GetString_()`: it yields the string only
      when the cell holds the string variant, and "" for a bytes cell. */
  function GetString(c: Column): (s: string)
    ensures c.StrCol? ==> s == c.str
    ensures c.BytesCol? ==> s == ""
  {
    match c
    case StrCol(v) => v
    case BytesCol(_) => ""
  }

  /** The content a cell carries, whatever its variant. */
  function Payload(c: Column): Bytes {
    match c
    case StrCol(v) => v
    case BytesCol(v) => v
  }

  /** The type a cell's variant corresponds to. */
  function TypeOf(c: Column): ColumnType {
    match c
    case StrCol(_) => STRING
    case BytesCol(_) => BYTES
  }

  /** A row fits a schema: same number of columns, and each cell's variant is
      the declared type of its position. */
  predicate Conforms(schema: seq<ColumnDef>, row: Row) {
    && |row| == |schema|
    && forall i :: 0 <= i < |row| ==> TypeOf(row[i]) == schema[i].ctype
  }

  /** Every schema of this chaincode declares one key column, the first, as a
      string; a row is addressed by the string in its first cell. */
  predicate KeyedSchema(schema: seq<ColumnDef>) {
    && |schema| > 0
    && schema[0].ctype == STRING
    && schema[0].key
    && forall i :: 0 < i < |schema| ==> !schema[i].key
  }

  /** The key a row is stored under. */
  function KeyOf(row: Row): string
    requires |row| > 0
  {
    GetString(row[0])
  }

  /** A table: its declared schema and its rows by key. */
  datatype Table = Table(schema: seq<ColumnDef>, rows: map<string, Row>)

  /** The invariant the ledger keeps for a table: every row fits the schema and
      is stored under its own key. */
  predicate WellFormed(t: Table) {
    && KeyedSchema(t.schema)
    && forall k :: k in t.rows ==> Conforms(t.schema, t.rows[k]) && KeyOf(t.rows[k]) == k
  }

  /** The whole ledger seen by one transaction. */
  datatype Ledger = Ledger(state: State, tables: map<string, Table>)

  /** `stub.CreateTable(name, schema)`: fails when the call faults or the name
      is taken; otherwise adds an empty table and touches nothing else. */
  function CreateTable(tables: map<string, Table>, f: Faults, name: string, schema: seq<ColumnDef>)
    : (r: Result<map<string, Table>>)
    ensures r.Failure? <==> name in f.createFails || name in tables
    ensures r.Success? ==> r.value == tables[name := Table(schema, map[])]
  {
    if name in f.createFails || name in tables then Failure(LedgerFailed("CreateTable"))
    else Success(tables[name := Table(schema, map[])])
  }

  /** Whether a row write into table `name` can reach the store at all: the
      table exists, the row fits its schema, and the write does not fault. */
  predicate Writable(tables: map<string, Table>, f: Faults, name: string, row: Row) {
    && name in tables
    && Conforms(tables[name].schema, row)
    && |row| > 0
    && KeyOf(row) !in f.rowFails
  }

  /** `stub.InsertRow(name, row)`: an error when the row cannot be written,
      `false` when a row with its key exists, otherwise `true` and the row
      added. */
  function InsertRow(tables: map<string, Table>, f: Faults, name: string, row: Row)
    : (r: (map<string, Table>, Result<bool>))
    ensures r.1.Failure? <==> !Writable(tables, f, name, row)
    ensures r.1 == Success(true) <==> Writable(tables, f, name, row) && KeyOf(row) !in tables[name].rows
    ensures r.1 != Success(true) ==> r.0 == tables
    ensures r.1 == Success(true) ==>
      r.0 == tables[name := tables[name].(rows := tables[name].rows[KeyOf(row) := row])]
  {
    if !Writable(tables, f, name, row) then (tables, Failure(LedgerFailed("InsertRow")))
    else if KeyOf(row) in tables[name].rows then (tables, Success(false))
    else
      var t := tables[name];
      (tables[name := t.(rows := t.rows[KeyOf(row) := row])], Success(true))
  }

  /** `stub.ReplaceRow(name, row)`: like `InsertRow`, but the row must already
      exist; it is then overwritten whole. */
  function ReplaceRow(tables: map<string, Table>, f: Faults, name: string, row: Row)
    : (r: (map<string, Table>, Result<bool>))
    ensures r.1.Failure? <==> !Writable(tables, f, name, row)
    ensures r.1 == Success(true) <==> Writable(tables, f, name, row) && KeyOf(row) in tables[name].rows
    ensures r.1 != Success(true) ==> r.0 == tables
    ensures r.1 == Success(true) ==>
      r.0 == tables[name := tables[name].(rows := tables[name].rows[KeyOf(row) := row])]
  {
    if !Writable(tables, f, name, row) then (tables, Failure(LedgerFailed("ReplaceRow")))
    else if KeyOf(row) !in tables[name].rows then (tables, Success(false))
    else
      var t := tables[name];
      (tables[name := t.(rows := t.rows[KeyOf(row) := row])], Success(true))
  }

  /** Row writes keep a well-formed table well-formed: the ledger never stores
      a row that does not fit the schema, nor one under a foreign key. */
  lemma RowWritePreservesWellFormed(tables: map<string, Table>, f: Faults, name: string, row: Row)
    requires name in tables && WellFormed(tables[name])
    ensures name in InsertRow(tables, f, name, row).0 && WellFormed(InsertRow(tables, f, name, row).0[name])
    ensures name in ReplaceRow(tables, f, name, row).0 && WellFormed(ReplaceRow(tables, f, name, row).0[name])
  {
  }
}
