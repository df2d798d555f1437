/**
 Worked examples on small concrete tables: what a save, a delete, an update
 and a filter do to a log for 2024-01-01 and the lunch saved under it.
 */
module Scenarios {
  import opened Wrappers
  import opened Tables
  import opened Records
  import opened Database
  import opened Filters

  const sampleLog := DailyLog("2024-01-01", 80, "8", "correr", Moderate, ModerateWater, NoDrinks, "", 70.0, 20.0)

  /** Deleting a parent breaks `Linked`: the meal saved for it survives with
      a dangling key. */
  lemma DeleteBreaksLinked()
    ensures
      var db2 := SaveMeal(SaveDailyLog(Db([], [], []), sampleLog).db, "2024-01-01", Lunch, "arroz").db;
      Linked(db2) && !Linked(DeleteDailyLog(db2, 1))
  {
  }

  /** Updating a parent's date breaks `Linked` as well: the child keeps the
      old date. */
  lemma UpdateBreaksLinked()
    ensures !Linked(UpdateDailyLog(SaveMeal(SaveDailyLog(Db([], [], []), sampleLog).db, "2024-01-01", Lunch, "arroz").db, 1, sampleLog.(date := "2024-01-02")))
  {
  }

  /** Because a deleted newest key is handed out again, an orphaned meal is
      silently adopted by the next daily log saved, whatever its date. */
  lemma OrphanIsReadopted()
    ensures
      var db2 := SaveMeal(SaveDailyLog(Db([], [], []), sampleLog).db, "2024-01-01", Lunch, "arroz").db;
      var saved := SaveDailyLog(DeleteDailyLog(db2, 1), sampleLog.(date := "2024-03-15"));
      && saved.status == Stored(1)
      && saved.db.meals[0].data.parent == 1
      && Lookup(saved.db.daily, 1) == Some(sampleLog.(date := "2024-03-15"))
  {
  }

  /** A save example with a log for 2024-01-01: a lunch on that date is stored
      under it, a dinner on 2024-01-02 finds no parent. */
  lemma SaveScenario()
    ensures
      var db1 := SaveDailyLog(Db([], [], []), sampleLog).db;
      && SaveMeal(db1, "2024-01-01", Lunch, "arroz").status == Stored(1)
      && SaveMeal(db1, "2024-01-01", Lunch, "arroz").db.meals[0].data.parent == 1
      && SaveMeal(db1, "2024-01-02", Dinner, "sopa") == Saved(db1, NoParentFound)
  {
  }
  /** A filter example with two logs, on 2024-01-01 (moderate exercise, with a
      lunch) and on 2024-01-02 (low exercise): the one-day window on the first
      date with the moderate selection keeps the first log and its lunch and
      drops the second log. */
  lemma FilterScenario()
    ensures
      var first := Row(1, sampleLog);
      var second := Row(2, sampleLog.(date := "2024-01-02", intensity := Low));
      var lunch := Row(1, Meal(1, "2024-01-01", Lunch, "arroz"));
      var spec := FilterSpec(Some(Window("2024-01-01", "2024-01-01")), {}, {Moderate});
      var r := ApplyFilters(spec, Db([first, second], [lunch], []));
      first in r.daily && second !in r.daily && lunch in r.meals
  {
    var first := Row(1, sampleLog);
    var second := Row(2, sampleLog.(date := "2024-01-02", intensity := Low));
    var lunch := Row(1, Meal(1, "2024-01-01", Lunch, "arroz"));
    var db := Db([first, second], [lunch], []);
    var spec := FilterSpec(Some(Window("2024-01-01", "2024-01-01")), {}, {Moderate});
    SingleDayWindow(first.data.date, "2024-01-01");
    assert DailyKept(spec, first);
    assert first in db.daily;
    assert 1 in KeptIds(spec, db.daily);
    assert MealKept(spec, db.daily, lunch);
    assert lunch in db.meals;
    assert !DailyKept(spec, second);
  }
}
