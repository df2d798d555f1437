/**
 The data access of the health tracker as pure functions over an in-memory
 value holding the three tables. Each save, update and delete of the page,
 and the soft reset the page defines, is one function from the tables before
 to the tables after; the SQLite connection, cursor and commits are replaced
 by passing the value along.
 */
module Database {
  import opened Wrappers
  import opened Tables
  import opened Records

  /** RegistroDiario, Comida and Medida, each in storage order. */
  datatype Db = Db(
    daily: seq<Row<DailyLog>>,
    meals: seq<Row<Meal>>,
    measures: seq<Row<Measurement>>)

  /** What a save reports: that a row was stored, or that no daily log
      exists for the requested date (the page shows an error and writes
      nothing). The key in `Stored(id)` is the model's addition: the page
      shows a fixed success message and never reads the new key. */
  datatype Status = Stored(id: int) | NoParentFound

  datatype Saved = Saved(db: Db, status: Status)

  /** Every table keeps positive, strictly increasing keys. */
  ghost predicate Valid(db: Db)
  {
    Wellformed(db.daily) && Wellformed(db.meals) && Wellformed(db.measures)
  }

  /** Some daily log is dated `date`. */
  predicate HasLogOn(daily: seq<Row<DailyLog>>, date: Date)
  {
    exists x :: x in daily && x.data.date == date
  }

  /** `id` is the key of a daily log dated `date`. */
  ghost predicate IsLogOn(daily: seq<Row<DailyLog>>, date: Date, id: int)
  {
    exists x :: x in daily && x.id == id && x.data.date == date
  }

  /** `id` is the largest key among the daily logs dated `date`. */
  ghost predicate IsLatestOn(daily: seq<Row<DailyLog>>, date: Date, id: int)
  {
    && IsLogOn(daily, date, id)
    && forall x :: x in daily && x.data.date == date ==> x.id <= id
  }

  /** Parent resolution: the daily log with this date and the highest key,
      as `SELECT id ... WHERE fecha = ? ORDER BY id DESC LIMIT 1`. */
  function ResolveParent(daily: seq<Row<DailyLog>>, date: Date): (r: Option<int>)
    ensures r.None? <==> !HasLogOn(daily, date)
    ensures r.Some? ==> IsLatestOn(daily, date, r.value)
  {
    if |daily| == 0 then None
    else
      var init := daily[..|daily| - 1];
      var last := daily[|daily| - 1];
      var rest := ResolveParent(init, date);
      assert forall x :: x in daily ==> x == last || x in init;
      assert forall x :: x in init ==> x in daily;
      if last.data.date != date then rest
      else if rest.Some? && rest.value > last.id then rest
      else Some(last.id)
  }

  /** Saving a daily log: appends one row under a fresh key. No check on the
      date: several logs may share one. */
  function SaveDailyLog(db: Db, log: DailyLog): (r: Saved)
    ensures r.status.Stored?
    ensures r.status.id == NextId(db.daily)
    ensures |r.db.daily| == |db.daily| + 1
    ensures r.db.daily[..|db.daily|] == db.daily
    ensures r.db.daily[|db.daily|] == Row(r.status.id, log)
    ensures forall x :: x in db.daily ==> x.id < r.status.id
    ensures r.db.meals == db.meals && r.db.measures == db.measures
  {
    var id := NextId(db.daily);
    Saved(db.(daily := Insert(db.daily, log)), Stored(id))
  }

  /** Saving a meal: resolves the parent by date and appends one Comida row,
      or reports `NoParentFound` and changes nothing. */
  function SaveMeal(db: Db, date: Date, kind: MealKind, description: string): (r: Saved)
    ensures r.status.NoParentFound? <==> !HasLogOn(db.daily, date)
    ensures r.status.NoParentFound? ==> r.db == db
    ensures r.status.Stored? ==>
      && r.db.daily == db.daily
      && r.db.measures == db.measures
      && |r.db.meals| == |db.meals| + 1
      && r.db.meals[..|db.meals|] == db.meals
      && r.db.meals[|db.meals|].id == r.status.id
      && r.status.id == NextId(db.meals)
      && r.db.meals[|db.meals|].data.date == date
      && r.db.meals[|db.meals|].data.kind == kind
      && r.db.meals[|db.meals|].data.description == description
      && IsLatestOn(db.daily, date, r.db.meals[|db.meals|].data.parent)
  {
    match ResolveParent(db.daily, date)
    case None => Saved(db, NoParentFound)
    case Some(parent) =>
      var id := NextId(db.meals);
      Saved(db.(meals := Insert(db.meals, Meal(parent, date, kind, description))), Stored(id))
  }

  /** Saving a measurement: the same parent resolution, then one Medida row. */
  function SaveMeasurement(db: Db, date: Date, time: Time, glucose: real, uricAcid: real): (r: Saved)
    ensures r.status.NoParentFound? <==> !HasLogOn(db.daily, date)
    ensures r.status.NoParentFound? ==> r.db == db
    ensures r.status.Stored? ==>
      && r.db.daily == db.daily
      && r.db.meals == db.meals
      && |r.db.measures| == |db.measures| + 1
      && r.db.measures[..|db.measures|] == db.measures
      && r.db.measures[|db.measures|].id == r.status.id
      && r.status.id == NextId(db.measures)
      && r.db.measures[|db.measures|].data.date == date
      && r.db.measures[|db.measures|].data.time == time
      && r.db.measures[|db.measures|].data.glucose == glucose
      && r.db.measures[|db.measures|].data.uricAcid == uricAcid
      && IsLatestOn(db.daily, date, r.db.measures[|db.measures|].data.parent)
  {
    match ResolveParent(db.daily, date)
    case None => Saved(db, NoParentFound)
    case Some(parent) =>
      var id := NextId(db.measures);
      Saved(db.(measures := Insert(db.measures, Measurement(parent, date, time, glucose, uricAcid))), Stored(id))
  }

  /** Updating a daily log: all ten non-key columns of the row with key `id`
      are overwritten; an unknown key affects no row and is not an error. */
  function UpdateDailyLog(db: Db, id: int, log: DailyLog): (r: Db)
    ensures |r.daily| == |db.daily|
    ensures forall i :: 0 <= i < |db.daily| ==> r.daily[i].id == db.daily[i].id
    ensures forall i :: 0 <= i < |db.daily| && db.daily[i].id == id ==> r.daily[i].data == log
    ensures forall i :: 0 <= i < |db.daily| && db.daily[i].id != id ==> r.daily[i] == db.daily[i]
    ensures r.meals == db.meals && r.measures == db.measures
  {
    db.(daily := Overwrite(db.daily, id, log))
  }

  /** Deleting a daily log by key. Comida and Medida are not touched, so
      their rows may keep pointing at the removed key. */
  function DeleteDailyLog(db: Db, id: int): (r: Db)
    ensures forall x :: x in r.daily ==> x in db.daily && x.id != id
    ensures forall x :: x in db.daily && x.id != id ==> x in r.daily
    ensures IsSubseq(r.daily, db.daily)
    ensures id !in Ids(r.daily)
    ensures r.meals == db.meals && r.measures == db.measures
  {
    db.(daily := Remove(db.daily, id))
  }

  /** The soft reset: every row of the three tables deleted, schema kept.
      Dropping and recreating the tables leaves the same empty state. The
      page's button for it is commented out, so the page never runs it. */
  function SoftReset(db: Db): (r: Db)
    ensures |r.daily| == 0 && |r.meals| == 0 && |r.measures| == 0
  {
    Db([], [], [])
  }

  /** Every meal and measurement points at an existing daily log with the
      same date. Saves keep this; updates and deletes may break it. */
  ghost predicate Linked(db: Db)
  {
    && (forall m :: m in db.meals ==> IsLogOn(db.daily, m.data.date, m.data.parent))
    && (forall m :: m in db.measures ==> IsLogOn(db.daily, m.data.date, m.data.parent))
  }

  /** A log saved for a date becomes that date's resolved parent: the most
      recently inserted log wins. */
  lemma LatestLogWins(db: Db, log: DailyLog)
    ensures ResolveParent(SaveDailyLog(db, log).db.daily, log.date) == Some(SaveDailyLog(db, log).status.id)
  {
  }

  /** Saving a daily log keeps the key invariant and keeps every child linked. */
  lemma SaveDailyLogPreserves(db: Db, log: DailyLog)
    requires Valid(db)
    ensures Valid(SaveDailyLog(db, log).db)
    ensures Linked(db) ==> Linked(SaveDailyLog(db, log).db)
  {
    var r := SaveDailyLog(db, log).db;
    InsertWellformed(db.daily, log);
    if Linked(db) {
      forall m | m in r.meals
        ensures IsLogOn(r.daily, m.data.date, m.data.parent)
      {
        var x :| x in db.daily && x.id == m.data.parent && x.data.date == m.data.date;
        assert x in r.daily;
      }
      forall m | m in r.measures
        ensures IsLogOn(r.daily, m.data.date, m.data.parent)
      {
        var x :| x in db.daily && x.id == m.data.parent && x.data.date == m.data.date;
        assert x in r.daily;
      }
    }
  }

  /** Saving a meal keeps both invariants: the new meal is linked to its
      resolved parent, which carries the meal's date. */
  lemma SaveMealPreserves(db: Db, date: Date, kind: MealKind, description: string)
    requires Valid(db)
    ensures Valid(SaveMeal(db, date, kind, description).db)
    ensures Linked(db) ==> Linked(SaveMeal(db, date, kind, description).db)
  {
    match ResolveParent(db.daily, date)
    case None =>
    case Some(parent) => InsertWellformed(db.meals, Meal(parent, date, kind, description));
  }

  /** Saving a measurement keeps both invariants, as for meals. */
  lemma SaveMeasurementPreserves(db: Db, date: Date, time: Time, glucose: real, uricAcid: real)
    requires Valid(db)
    ensures Valid(SaveMeasurement(db, date, time, glucose, uricAcid).db)
    ensures Linked(db) ==> Linked(SaveMeasurement(db, date, time, glucose, uricAcid).db)
  {
    match ResolveParent(db.daily, date)
    case None =>
    case Some(parent) => InsertWellformed(db.measures, Measurement(parent, date, time, glucose, uricAcid));
  }

  /** Update followed by read-back returns exactly the new columns; an
      unknown key leaves all three tables unchanged. */
  lemma UpdateReadBack(db: Db, id: int, log: DailyLog)
    requires Valid(db)
    ensures Valid(UpdateDailyLog(db, id, log))
    ensures id in Ids(db.daily) ==> Lookup(UpdateDailyLog(db, id, log).daily, id) == Some(log)
    ensures id !in Ids(db.daily) ==> UpdateDailyLog(db, id, log) == db
  {
  }

  /** Delete removes exactly one row when the key exists, none otherwise, and
      leaves every child of the removed log in place, now pointing at a key
      the daily table no longer holds. */
  lemma DeleteLeavesOrphans(db: Db, id: int)
    requires Valid(db)
    ensures Valid(DeleteDailyLog(db, id))
    ensures id in Ids(db.daily) ==> |DeleteDailyLog(db, id).daily| == |db.daily| - 1
    ensures id !in Ids(db.daily) ==> DeleteDailyLog(db, id) == db
    ensures forall m :: m in db.meals && m.data.parent == id ==>
      m in DeleteDailyLog(db, id).meals && m.data.parent !in Ids(DeleteDailyLog(db, id).daily)
    ensures forall m :: m in db.measures && m.data.parent == id ==>
      m in DeleteDailyLog(db, id).measures && m.data.parent !in Ids(DeleteDailyLog(db, id).daily)
  {
    RemoveWellformed(db.daily, id);
    if id in Ids(db.daily) {
      RemoveCount(db.daily, id);
    } else {
      RemoveMissing(db.daily, id);
    }
  }

  /** After a reset the tables are valid and linked, and key numbering
      starts again at 1. */
  lemma ResetRestartsKeys(db: Db, log: DailyLog)
    ensures Valid(SoftReset(db)) && Linked(SoftReset(db))
    ensures SaveDailyLog(SoftReset(db), log).status == Stored(1)
  {
  }
}
