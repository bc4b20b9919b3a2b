# Dog: a one-table object-relational mapping, modelled in Dafny

The system is a `Dog` class that gives objects with `id`, `name` and `breed` fields a
home in one SQLite table, `dogs (id INTEGER PRIMARY KEY, name TEXT, breed TEXT)`.
Class-level operations create and drop the table, create rows, read them back (all rows,
by name, by id), and find or create a row by name and breed. Instance operations are
`save` (an insert that sets `id`) and `update` (a write keyed by `id`).

The model has three modules:

- `DogsTable` (`sql_table.dfy`) holds what the engine does with the statements the class
  issues. A column value or parameter may be SQL NULL (`Text = Option<string>`, with
  `None` as NULL). `SqlEquals` is `=` in a WHERE clause: a comparison with NULL never
  selects. A `Record` is a row and `RawRow` is the positional triple that `SELECT *`
  returns. `Condition` holds the three WHERE clauses. `SelectOne` is `... LIMIT 1`.
  `NextRowId` is the rowid SQLite allocates. `Insert` is the `INSERT` and `UpdateWhereId`
  is the `UPDATE`. `Database` is the state of the database file behind the connection:
  whether `dogs` exists, and its rows in storage order. A rowid table stores and scans its
  rows in ascending rowid order, which is also insertion order. Its invariant `Valid()`
  says that an absent table has no rows and that ids ascend, so they are unique.
- `DogOrm` (`dog.dfy`) is the `Dog` class. It has mutable fields `id`, `name` and `breed`.
  Each classmethod becomes a static method that takes the shared connection as a
  `Database` argument, and each instance method becomes a method. Methods that change the
  table `modify` it and state its new contents. Read-only queries have no `modifies`
  clause, so the table is unchanged by construction. `new_from_db` and `get_all` are
  functions: they return the field values of the Dogs they build (`DogView`).
- `DogProperties` (`dog_properties.dfy`) holds the lemmas that relate several calls. It
  also has two client methods that verify the usual call sequences against the contracts.

The engine chooses which row `LIMIT 1` returns when several match and there is no
`ORDER BY`. So the contracts of `FindByName`, `FindById` and `FindOrCreateBy` promise only
"a Dog built from some matching row" (`FoundBy`). Their bodies scan in storage order,
which is one admissible choice.

Two details of the code:

- `update` with a NULL `id` runs `UPDATE ... WHERE id = NULL`, which matches no row, so
  the model makes it a no-op rather than an error.
- `find_or_create_by` inserts without committing (lib/dog.py:129). Within the one
  connection the row is visible anyway (see Left out).

## Model

| member | source | states |
|---|---|---|
| DogsTable.SelectOne | lib/dog.py:78-86 | `SELECT * ... WHERE c LIMIT 1` yields nothing exactly when no row satisfies `c`; otherwise it yields a stored row that satisfies `c` |
| DogsTable.MaxRowId | lib/dog.py:18 | the largest rowid of a non-empty table: no row has a larger id and some row has this one |
| DogsTable.NextRowId | lib/dog.py:43-47 | the rowid of a new row is 1 in an empty table and one more than the largest otherwise; it exceeds every existing id |
| DogsTable.Insert | lib/dog.py:38-43 | the INSERT appends exactly one row with the given name and breed and a fresh id; earlier rows stay as they were; unique ids stay unique and ascending ids stay ascending |
| DogsTable.UpdateWhereId | lib/dog.py:144-151 | the UPDATE keeps the row count and every id; rows whose id equals the parameter take the new name and breed; all other rows are unchanged; a NULL or unknown id changes nothing; unique ids stay unique and ascending ids stay ascending |
| DogsTable.Database.Open | lib/dog.py:4-5 | the connection opens onto the table state already in the file, whose rows are in ascending rowid order |
| DogOrm.Dog.constructor | lib/dog.py:8-11 | a new Dog holds the given name and breed, and the given id (NULL by default) |
| DogOrm.Dog.CreateTable | lib/dog.py:14-24 | afterwards the table exists; if it already existed its rows are untouched, otherwise it is empty; so a second call changes nothing |
| DogOrm.Dog.DropTable | lib/dog.py:27-34 | afterwards there is no table and no row; on an absent table nothing changes |
| DogOrm.Dog.Save | lib/dog.py:36-47 | exactly one row with this Dog's name and breed is appended and earlier rows are unchanged; `id` becomes that row's id, which no earlier row had |
| DogOrm.Dog.Create | lib/dog.py:50-54 | returns a new Dog with the given name and breed and the id of the one row appended, which carries the same values |
| DogOrm.Dog.NewFromDb | lib/dog.py:57-64 | the Dog read from a raw row always has an id, and for every stored row whose `SELECT *` triple this is, it equals that row read by column name (partner: `DogProperties.MarshalingFollowsSchema`) |
| DogOrm.Dog.FindWhere | lib/dog.py:84-92 | the shared lookup step of both finders: null exactly when no row satisfies the condition; otherwise a new Dog built from some row that does |
| DogOrm.Dog.GetAll | lib/dog.py:67-73 | one Dog per row, in table order (ascending rowid): as many Dogs as rows, and the i-th carries the id, name and breed of the i-th row |
| DogOrm.Dog.FindByName | lib/dog.py:76-92 | null exactly when no row's name equals the argument (always for NULL); otherwise a new Dog equal to some row with that name |
| DogOrm.Dog.FindById | lib/dog.py:95-111 | null exactly when no row's id equals the argument (always for NULL); otherwise a new Dog equal to some row with that id |
| DogOrm.Dog.FindOrCreateBy | lib/dog.py:114-140 | if no row matches both name and breed (always when either is NULL), exactly one row `(fresh id, name, breed)` is appended and returned as a Dog; otherwise the table is unchanged and a Dog built from a matching row is returned |
| DogOrm.Dog.Update | lib/dog.py:142-152 | the table becomes the UPDATE keyed by this Dog's id applied to it, with this Dog's name and breed |
| DogProperties.MarshalingFollowsSchema | lib/dog.py:57-64 | reading `SELECT *` positionally (0 as id, 1 as name, 2 as breed) gives the same Dog as reading the row's columns by name, and distinct rows give distinct Dogs |
| DogProperties.IdLookupIsDetermined | lib/dog.py:95-111 | because the id is the primary key, whatever `find_by_id` returns for a stored row's id is that row |
| DogProperties.CreatedRowIsFoundById | lib/dog.py:50-54 | after `create(name, breed)`, `find_by_id` on the new id is not null and returns that name and breed |
| DogProperties.UpdatedRowIsFoundById | lib/dog.py:142-152 | after `update` of a Dog with a stored id, `find_by_id` on that id returns the new name and breed |
| DogProperties.UpdateChangesOneRowAtMost | lib/dog.py:144-149 | `update` changes at most one row, and that row's id is the Dog's id |
| DogProperties.FindOrCreateTwice | lib/dog.py:114-140 | two calls in a row with non-NULL arguments: the second leaves the table unchanged, and together they add at most one row (exactly one if nothing matched before); if at most one row matched before, both calls return the same Dog |
| DogProperties.FindOrCreateWithNullInserts | lib/dog.py:114-123 | with a NULL name or breed every call inserts a row whose id is new to the table |
| DogProperties.FidoScenario | lib/dog.py:27-152 | drop, create the table, `create("Fido", "Beagle")` gets id 1 and `get_all` has one Dog; `find_by_id(1)` returns Fido the Beagle; after renaming the Dog to "Fido2" and calling `update`, `find_by_id(1)` returns "Fido2" |
| DogProperties.RexTwice | lib/dog.py:114-140 | on a table with no ("Rex", "Lab") row, two `find_or_create_by("Rex", "Lab")` calls return the same id and add exactly one row |

## Left out

- Connection setup (lib/dog.py:1-5). The sqlite3 connection, cursor and file path are I/O.
  They are replaced by a `Database` value passed to every operation.
- Commits and transactions, including the missing commit in `find_or_create_by`
  (lib/dog.py:129). With one synchronous connection a read sees its own uncommitted
  writes, so every statement is modelled as applied at once. Durability is not modelled.
- Concurrency. Between its SELECT and its INSERT, `find_or_create_by` can race with
  another writer and create duplicates. The model treats callers as sequential.
- Engine errors. Running a statement on a missing table raises an exception, as do
  constraint and connection failures. The model makes "the table exists" a precondition
  of `save`, `create`, `get_all`, the `find_*` methods and `update`.
- Rowid exhaustion. SQLite picks random unused rowids once the largest rowid reaches
  2^63 - 1. `NextRowId` always uses max + 1. The 64-bit width of INTEGER is not modelled.
- `CURSOR.lastrowid` is not a separate piece of state. The model uses the id of the row
  just inserted, which is what `lastrowid` holds after a successful INSERT.
- Values other than strings or None for `name` and `breed`, and other than integers or
  None for an id, are not modelled, and neither is SQLite's type affinity.
- DogOrm.Dog.GetAll: returns the field values of the Dogs it builds, not new mutable Dog
  objects. The list is never mutated through in the source.
- DogOrm.Dog.NewFromDb: gives field values rather than a new object. The finders
  build their Dog objects with the same positional reading.
- DogProperties.FindOrCreateTwice: proves the same Dog only when at most one row matched
  before the first call. With duplicate (name, breed) rows, `LIMIT 1` without `ORDER BY`
  is free to pick a different duplicate on each call.
