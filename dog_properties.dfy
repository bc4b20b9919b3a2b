/** Properties of the Dog operations that relate several calls: repeating
    find-or-create, reading back what was created or updated, the marshaling
    convention, and two sequences of calls written as clients. */
module DogProperties {
  import opened DogsTable
  import opened DogOrm

  /** At most one row of `rows` satisfies `c`. */
  predicate AtMostOneMatch(rows: seq<Record>, c: Condition)
  {
    forall i, j :: 0 <= i < j < |rows| && Holds(c, rows[i]) ==> !Holds(c, rows[j])
  }

  /** Reading a row positionally, in the schema's column order, gives the
      same Dog as reading it by column name, and loses nothing. */
  lemma MarshalingFollowsSchema(r: Record, s: Record)
    ensures Dog.NewFromDb(SelectStar(r)) == Materialized(r)
    ensures Dog.NewFromDb(SelectStar(r)) == Dog.NewFromDb(SelectStar(s)) ==> r == s
  {
  }

  /** With ids a primary key, whatever `find_by_id` returns for the id of a
      stored row is that row. */
  lemma IdLookupIsDetermined(rows: seq<Record>, r: Record, d: DogView)
    requires UniqueIds(rows)
    requires r in rows
    requires FoundBy(rows, IdIs(Some(r.id)), d)
    ensures d == Materialized(r)
  {
  }

  /** After `create(name, breed)` (one Insert), `find_by_id` on the new id
      finds a row, and it carries that name and breed. */
  lemma CreatedRowIsFoundById(rows: seq<Record>, name: Text, breed: Text, d: DogView)
    ensures !NoneMatch(Insert(rows, name, breed), IdIs(Some(NextRowId(rows))))
    ensures FoundBy(Insert(rows, name, breed), IdIs(Some(NextRowId(rows))), d) ==>
              d == DogView(Some(NextRowId(rows)), name, breed)
  {
    var after := Insert(rows, name, breed);
    var created := after[|rows|];
    assert created in after && Holds(IdIs(Some(NextRowId(rows))), created);
    assert after == rows + [created];
    if FoundBy(after, IdIs(Some(NextRowId(rows))), d) {
      // every earlier id is below the new one, so only the new row matches
      var r :| r in after && Holds(IdIs(Some(NextRowId(rows))), r) && d == Materialized(r);
      assert r !in rows;
    }
  }

  /** After `update` of a Dog whose id is that of a stored row, `find_by_id`
      on that id finds the row with the new name and breed. */
  lemma UpdatedRowIsFoundById(rows: seq<Record>, r: Record, name: Text, breed: Text, d: DogView)
    requires UniqueIds(rows)
    requires r in rows
    ensures !NoneMatch(UpdateWhereId(rows, Some(r.id), name, breed), IdIs(Some(r.id)))
    ensures FoundBy(UpdateWhereId(rows, Some(r.id), name, breed), IdIs(Some(r.id)), d) ==>
              d == DogView(Some(r.id), name, breed)
  {
    var after := UpdateWhereId(rows, Some(r.id), name, breed);
    var i :| 0 <= i < |rows| && rows[i] == r;
    assert Holds(IdIs(Some(r.id)), rows[i]);
    assert after[i] == Record(r.id, name, breed);
    assert after[i] in after;
    if FoundBy(after, IdIs(Some(r.id)), d) {
      IdLookupIsDetermined(after, after[i], d);
    }
  }

  /** `update` changes at most one row, and only one whose id is the Dog's. */
  lemma UpdateChangesOneRowAtMost(rows: seq<Record>, id: Option<int>, name: Text, breed: Text, i: int, j: int)
    requires UniqueIds(rows)
    requires 0 <= i < |rows| && 0 <= j < |rows|
    requires UpdateWhereId(rows, id, name, breed)[i] != rows[i]
    requires UpdateWhereId(rows, id, name, breed)[j] != rows[j]
    ensures i == j && id == Some(rows[i].id)
  {
  }

  /** Two `find_or_create_by(name, breed)` calls in a row with non-NULL
      arguments: the second inserts nothing and the two together insert at
      most one row. When no row matched before the first call, or only one
      did, both calls return the same Dog. */
  lemma FindOrCreateTwice(r0: seq<Record>, name: Text, breed: Text,
                          r1: seq<Record>, d1: DogView, r2: seq<Record>, d2: DogView)
    requires name.Some? && breed.Some?
    requires FindOrCreateOutcome(r0, name, breed, r1, d1)
    requires FindOrCreateOutcome(r1, name, breed, r2, d2)
    ensures r2 == r1
    ensures |r0| <= |r1| <= |r0| + 1
    ensures NoneMatch(r0, NameAndBreedAre(name, breed)) ==> |r1| == |r0| + 1
    ensures AtMostOneMatch(r0, NameAndBreedAre(name, breed)) ==> d2 == d1
  {
  }

  /** With a NULL name or breed nothing ever matches, so every
      `find_or_create_by` call inserts a row with a new id. */
  lemma FindOrCreateWithNullInserts(before: seq<Record>, name: Text, breed: Text,
                                    after: seq<Record>, d: DogView)
    requires name.None? || breed.None?
    requires FindOrCreateOutcome(before, name, breed, after, d)
    ensures after == Insert(before, name, breed)
    ensures d.id == Some(NextRowId(before))
    ensures forall r :: r in before ==> Some(r.id) != d.id
  {
  }

  /** Create a table afresh, create Fido, read him back by id, rename him,
      update, and read him back again. */
  method FidoScenario(db: Database)
    requires db.Valid()
    modifies db
    ensures db.Valid() && db.tableExists
    ensures db.rows == [Record(1, Some("Fido2"), Some("Beagle"))]
  {
    Dog.DropTable(db);
    Dog.CreateTable(db);
    var fido := Dog.Create(db, Some("Fido"), Some("Beagle"));
    assert fido.id == Some(1);
    assert |Dog.GetAll(db)| == 1;

    var found := Dog.FindById(db, Some(1));
    assert db.rows[0] in db.rows;
    assert found != null && found.View() == DogView(Some(1), Some("Fido"), Some("Beagle"));

    found.name := Some("Fido2");
    found.Update(db);
    assert db.rows == UpdateWhereId([Record(1, Some("Fido"), Some("Beagle"))], Some(1), Some("Fido2"), Some("Beagle"));
    var again := Dog.FindById(db, Some(1));
    assert db.rows[0] in db.rows;
    assert again != null && again.name == Some("Fido2");
  }

  /** `find_or_create_by("Rex", "Lab")` twice on a table with no Rex the
      Labrador: the same id both times, and one row more than before. */
  method RexTwice(db: Database) returns (first: Dog, second: Dog)
    requires db.Valid() && db.tableExists
    requires NoneMatch(db.rows, NameAndBreedAre(Some("Rex"), Some("Lab")))
    modifies db
    ensures db.Valid() && |db.rows| == |old(db.rows)| + 1
    ensures first.id.Some? && second.id == first.id
    ensures second.View() == DogView(first.id, Some("Rex"), Some("Lab"))
  {
    ghost var r0 := db.rows;
    first := Dog.FindOrCreateBy(db, Some("Rex"), Some("Lab"));
    ghost var r1 := db.rows;
    second := Dog.FindOrCreateBy(db, Some("Rex"), Some("Lab"));
    FindOrCreateTwice(r0, Some("Rex"), Some("Lab"), r1, first.View(), db.rows, second.View());
  }
}
