/** The `dogs` table as the SQLite engine treats it: column values with SQL
    NULL, the rows in storage order, the WHERE clauses the Dog class issues and
    the meaning of each statement it executes (`SELECT ... LIMIT 1`, `INSERT`,
    `UPDATE ... WHERE id = ?`, `CREATE`/`DROP TABLE IF ...`). */
module DogsTable {

  datatype Option<+T> = None | Some(value: T)

  /** A value of a TEXT column, or a bound parameter: `None` is SQL NULL. */
  type Text = Option<string>

  /** SQL `=` as a WHERE clause reads it: a comparison with NULL is never
      true, so it selects only when both sides are non-NULL and equal. */
  predicate SqlEquals<T(==)>(a: Option<T>, b: Option<T>)
  {
    a.Some? && b.Some? && a.value == b.value
  }

  /** One row of `dogs (id INTEGER PRIMARY KEY, name TEXT, breed TEXT)`.
      `id` is the rowid alias, so it is never NULL. */
  datatype Record = Record(id: int, name: Text, breed: Text)

  /** What `SELECT *` hands back for a row: a triple in schema column order. */
  type RawRow = (int, Text, Text)

  function SelectStar(r: Record): RawRow
  {
    (r.id, r.name, r.breed)
  }

  /** The WHERE clauses issued against `dogs`. */
  datatype Condition =
    | NameIs(name: Text)                         // WHERE name = ?
    | IdIs(id: Option<int>)                      // WHERE id = ?
    | NameAndBreedAre(name: Text, breed: Text)   // WHERE (name, breed) = (?, ?)

  predicate Holds(c: Condition, r: Record)
  {
    match c
    case NameIs(n) => SqlEquals(r.name, n)
    case IdIs(k) => SqlEquals(Some(r.id), k)
    case NameAndBreedAre(n, b) => SqlEquals(r.name, n) && SqlEquals(r.breed, b)
  }

  predicate NoneMatch(rows: seq<Record>, c: Condition)
  {
    forall r :: r in rows ==> !Holds(c, r)
  }

  /** The rows of a rowid table are stored, and scanned, in ascending rowid
      order. */
  predicate AscendingIds(rows: seq<Record>)
  {
    forall i, j :: 0 <= i < j < |rows| ==> rows[i].id < rows[j].id
  }

  /** The primary-key invariant of the table: no two rows share an id. */
  predicate UniqueIds(rows: seq<Record>)
  {
    forall i, j :: 0 <= i < j < |rows| ==> rows[i].id != rows[j].id
  }

  /** `SELECT * FROM dogs WHERE c LIMIT 1`, evaluated by a scan in storage
      order. Without ORDER BY the engine may return any matching row; this
      scan is one admissible choice, and callers rely only on the contract. */
  function SelectOne(rows: seq<Record>, c: Condition): (res: Option<Record>)
    ensures res.None? <==> NoneMatch(rows, c)
    ensures res.Some? ==> res.value in rows && Holds(c, res.value)
  {
    if rows == [] then None
    else if Holds(c, rows[0]) then Some(rows[0])
    else SelectOne(rows[1..], c)
  }

  /** The largest rowid of a non-empty table. */
  function MaxRowId(rows: seq<Record>): (m: int)
    requires rows != []
    ensures forall r :: r in rows ==> r.id <= m
    ensures exists r :: r in rows && r.id == m
  {
    if |rows| == 1 then rows[0].id
    else
      var rest := MaxRowId(rows[1..]);
      assert rows[0] in rows && forall r :: r in rows[1..] ==> r in rows;
      if rows[0].id < rest then rest else rows[0].id
  }

  /** The rowid SQLite gives an INSERT that names no id, for a table without
      AUTOINCREMENT: 1 in an empty table, otherwise one more than the largest
      rowid. It is never the id of an existing row. */
  function NextRowId(rows: seq<Record>): (k: int)
    ensures forall r :: r in rows ==> r.id < k
    ensures rows == [] ==> k == 1
    ensures rows != [] ==> exists r :: r in rows && r.id == k - 1
  {
    if rows == [] then 1 else MaxRowId(rows) + 1
  }

  /** `INSERT INTO dogs (name, breed) VALUES (?, ?)`: one row is appended,
      carrying the values and a fresh rowid; every earlier row stays. */
  function Insert(rows: seq<Record>, name: Text, breed: Text): (res: seq<Record>)
    ensures |res| == |rows| + 1 && res[..|rows|] == rows
    ensures res[|rows|] == Record(NextRowId(rows), name, breed)
    ensures forall r :: r in rows ==> r.id != res[|rows|].id
    ensures UniqueIds(rows) ==> UniqueIds(res)
    ensures AscendingIds(rows) ==> AscendingIds(res)
  {
    rows + [Record(NextRowId(rows), name, breed)]
  }

  /** `UPDATE dogs SET name = ?, breed = ? WHERE id = ?`: the rows whose id
      equals the parameter take the new name and breed; no id changes and no
      other row changes; a NULL or unknown id changes nothing. */
  function UpdateWhereId(rows: seq<Record>, id: Option<int>, name: Text, breed: Text): (res: seq<Record>)
    ensures |res| == |rows|
    ensures forall i :: 0 <= i < |rows| ==> res[i].id == rows[i].id
    ensures forall i :: 0 <= i < |rows| && Holds(IdIs(id), rows[i]) ==>
              res[i].name == name && res[i].breed == breed
    ensures forall i :: 0 <= i < |rows| && !Holds(IdIs(id), rows[i]) ==> res[i] == rows[i]
    ensures NoneMatch(rows, IdIs(id)) ==> res == rows
    ensures UniqueIds(rows) ==> UniqueIds(res)
    ensures AscendingIds(rows) ==> AscendingIds(res)
  {
    seq(|rows|, i requires 0 <= i < |rows| =>
      if Holds(IdIs(id), rows[i]) then Record(rows[i].id, name, breed) else rows[i])
  }

  /** The database file behind the shared connection, as far as `dogs` is
      concerned: whether the table exists, and its rows in storage order,
      which is ascending rowid order and so also insertion order. */
  class Database {
    var tableExists: bool
    var rows: seq<Record>

    /** An absent table holds no rows; rows are kept in ascending rowid
        order, so ids are a primary key. */
    ghost predicate Valid()
      reads this
      ensures Valid() ==> UniqueIds(rows)
    {
      (!tableExists ==> rows == []) && AscendingIds(rows)
    }

    /** Connecting to a database file in whatever state it already is. */
    constructor Open(tableExists: bool, rows: seq<Record>)
      requires !tableExists ==> rows == []
      requires AscendingIds(rows)
      ensures Valid()
      ensures this.tableExists == tableExists && this.rows == rows
    {
      this.tableExists := tableExists;
      this.rows := rows;
    }
  }
}
