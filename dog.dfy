/** The `Dog` mapping class: an in-memory Dog with a NULL-until-saved id,
    and the class-level operations that create and drop the `dogs` table and
    read and write its rows. The process-wide connection becomes a `Database`
    passed to every operation. */
module DogOrm {
  import opened DogsTable

  /** The observable fields of a Dog instance. */
  datatype DogView = DogView(id: Option<int>, name: Text, breed: Text)

  /** A stored row read by column name. */
  function Materialized(r: Record): DogView
  {
    DogView(Some(r.id), r.name, r.breed)
  }

  /** `d` was built from some row of `rows` that satisfies `c`; which one,
      when several do, is left to the engine (LIMIT 1 without ORDER BY). */
  ghost predicate FoundBy(rows: seq<Record>, c: Condition, d: DogView)
  {
    exists r :: r in rows && Holds(c, r) && d == Materialized(r)
  }

  /** What one `find_or_create_by(name, breed)` may do to the rows and return:
      with no row matching both values (always the case when either is NULL)
      it inserts exactly one row and returns a Dog for it; otherwise it leaves
      the table alone and returns a Dog built from a matching row. */
  ghost predicate FindOrCreateOutcome(before: seq<Record>, name: Text, breed: Text,
                                      after: seq<Record>, d: DogView)
  {
    if NoneMatch(before, NameAndBreedAre(name, breed)) then
      after == Insert(before, name, breed) && d == DogView(Some(NextRowId(before)), name, breed)
    else
      after == before && FoundBy(before, NameAndBreedAre(name, breed), d)
  }

  class Dog {
    var id: Option<int>
    var name: Text
    var breed: Text

    function View(): DogView
      reads this
    {
      DogView(id, name, breed)
    }

    constructor(name: Text, breed: Text, id: Option<int> := None)
      ensures View() == DogView(id, name, breed)
    {
      this.id := id;
      this.name := name;
      this.breed := breed;
    }

    /** `CREATE TABLE IF NOT EXISTS dogs`: afterwards the table exists; rows
        already there are untouched, and a new table is empty. */
    static method CreateTable(db: Database)
      requires db.Valid()
      modifies db
      ensures db.Valid() && db.tableExists
      ensures old(db.tableExists) ==> db.rows == old(db.rows)
      ensures !old(db.tableExists) ==> db.rows == []
    {
      if !db.tableExists {
        db.tableExists := true;
        db.rows := [];
      }
    }

    /** `DROP TABLE IF EXISTS dogs`: afterwards there is no table and no row;
        on an absent table nothing changes. */
    static method DropTable(db: Database)
      requires db.Valid()
      modifies db
      ensures db.Valid() && !db.tableExists && db.rows == []
      ensures !old(db.tableExists) ==> db.rows == old(db.rows)
    {
      db.tableExists := false;
      db.rows := [];
    }

    /** Inserts a row carrying this Dog's name and breed, whatever its id was,
        and sets the id to the rowid the engine gave that row. */
    method Save(db: Database)
      requires db.Valid() && db.tableExists
      modifies this`id, db
      ensures db.Valid() && db.tableExists
      ensures db.rows == Insert(old(db.rows), name, breed)
      ensures id == Some(NextRowId(old(db.rows)))
      ensures forall r :: r in old(db.rows) ==> Some(r.id) != id
    {
      var rowid := NextRowId(db.rows);
      db.rows := Insert(db.rows, name, breed);
      id := Some(rowid);
    }

    /** A new Dog, saved at once. */
    static method Create(db: Database, name: Text, breed: Text) returns (dog: Dog)
      requires db.Valid() && db.tableExists
      modifies db
      ensures db.Valid() && db.tableExists && fresh(dog)
      ensures dog.View() == DogView(Some(NextRowId(old(db.rows))), name, breed)
      ensures db.rows == Insert(old(db.rows), name, breed)
    {
      dog := new Dog(name, breed);
      dog.Save(db);
    }

    /** The positional reading of a raw row: 0 is the id, 1 the name,
        2 the breed. A Dog read from the table always has an id, and it is
        the Dog the row's columns give when read by name. */
    static function NewFromDb(row: RawRow): (d: DogView)
      ensures d.id.Some?
      ensures forall r :: SelectStar(r) == row ==> d == Materialized(r)
    {
      DogView(Some(row.0), row.1, row.2)
    }

    /** `SELECT * FROM dogs`, one Dog per row in storage order. */
    static function GetAll(db: Database): (dogs: seq<DogView>)
      reads db
      requires db.tableExists
      ensures |dogs| == |db.rows|
      ensures forall i :: 0 <= i < |dogs| ==>
                dogs[i].id == Some(db.rows[i].id) &&
                dogs[i].name == db.rows[i].name && dogs[i].breed == db.rows[i].breed
    {
      seq(|db.rows|, i requires 0 <= i < |db.rows| reads db => NewFromDb(SelectStar(db.rows[i])))
    }

    /** The Dog for a row selected by `c`, or null when no row satisfies it. */
    static method FindWhere(db: Database, c: Condition) returns (dog: Dog?)
      requires db.tableExists
      ensures dog == null <==> NoneMatch(db.rows, c)
      ensures dog != null ==> fresh(dog) && FoundBy(db.rows, c, dog.View())
    {
      var row := SelectOne(db.rows, c);
      if row.None? {
        return null;
      }
      var raw := SelectStar(row.value);
      dog := new Dog(raw.1, raw.2, Some(raw.0));
      assert dog.View() == NewFromDb(raw) == Materialized(row.value);
    }

    /** `SELECT * FROM dogs WHERE name = ? LIMIT 1`; a NULL name finds nothing. */
    static method FindByName(db: Database, name: Text) returns (dog: Dog?)
      requires db.tableExists
      ensures dog == null <==> NoneMatch(db.rows, NameIs(name))
      ensures dog != null ==> fresh(dog) && FoundBy(db.rows, NameIs(name), dog.View())
    {
      dog := FindWhere(db, NameIs(name));
    }

    /** `SELECT * FROM dogs WHERE id = ? LIMIT 1`; a NULL id finds nothing. */
    static method FindById(db: Database, id: Option<int>) returns (dog: Dog?)
      requires db.tableExists
      ensures dog == null <==> NoneMatch(db.rows, IdIs(id))
      ensures dog != null ==> fresh(dog) && FoundBy(db.rows, IdIs(id), dog.View())
    {
      dog := FindWhere(db, IdIs(id));
    }

    /** Looks up a row matching both name and breed; inserts one when there is
        none. Both arguments default to NULL, and a NULL never matches. */
    static method FindOrCreateBy(db: Database, name: Text := None, breed: Text := None)
      returns (dog: Dog)
      requires db.Valid() && db.tableExists
      modifies db
      ensures db.Valid() && db.tableExists && fresh(dog)
      ensures FindOrCreateOutcome(old(db.rows), name, breed, db.rows, dog.View())
    {
      var row := SelectOne(db.rows, NameAndBreedAre(name, breed));
      if row.None? {
        var rowid := NextRowId(db.rows);
        db.rows := Insert(db.rows, name, breed);
        dog := new Dog(name, breed, Some(rowid));
      } else {
        var raw := SelectStar(row.value);
        dog := new Dog(raw.1, raw.2, Some(raw.0));
        assert dog.View() == Materialized(row.value);
      }
    }

    /** Writes this Dog's name and breed into the row keyed by its id. */
    method Update(db: Database)
      requires db.Valid() && db.tableExists
      modifies db
      ensures db.Valid() && db.tableExists
      ensures db.rows == UpdateWhereId(old(db.rows), id, name, breed)
    {
      db.rows := UpdateWhereId(db.rows, id, name, breed);
    }
  }
}
