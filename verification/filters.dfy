/**
 The filter cascade of the visualisation section. The three loaded tables are narrowed
 in three steps, in this order:
   1. a date window on the daily logs, then meals and measurements are cut
      back to the surviving daily keys;
   2. a meal-type selection on the meals alone;
   3. an exercise-intensity selection on the daily logs, then meals and
      measurements are cut back again to the surviving daily keys.
 An empty selection means "no filter"; only steps 1 and 3 cascade.
 */
module Filters {
  import opened Wrappers
  import opened Tables
  import opened Records
  import opened Database

  /** The closed date interval `[start, end]` of the sidebar. */
  datatype Window = Window(start: Date, end: Date)

  datatype FilterSpec = FilterSpec(
    dates: Option<Window>,
    kinds: set<MealKind>,
    intensities: set<Intensity>)

  /** Restricts meals and measurements to the keys of `daily`, which becomes
      the new daily table. */
  function Cascade(db: Db, daily: seq<Row<DailyLog>>): Db
  {
    Db(daily,
       Keep(db.meals, (m: Row<Meal>) => m.data.parent in Ids(daily)),
       Keep(db.measures, (m: Row<Measurement>) => m.data.parent in Ids(daily)))
  }

  function DateStep(db: Db, w: Window): Db
  {
    Cascade(db, Keep(db.daily, (x: Row<DailyLog>) => InWindow(x.data.date, w.start, w.end)))
  }

  function KindStep(db: Db, kinds: set<MealKind>): Db
  {
    db.(meals := Keep(db.meals, (m: Row<Meal>) => m.data.kind in kinds))
  }

  function IntensityStep(db: Db, intensities: set<Intensity>): Db
  {
    Cascade(db, Keep(db.daily, (x: Row<DailyLog>) => x.data.intensity in intensities))
  }

  /** Whether a daily log passes the date window and the intensity selection. */
  predicate DailyKept(spec: FilterSpec, x: Row<DailyLog>)
  {
    && (spec.dates.Some? ==> InWindow(x.data.date, spec.dates.value.start, spec.dates.value.end))
    && (spec.intensities != {} ==> x.data.intensity in spec.intensities)
  }

  /** Whether some step restricts the children to surviving parents. */
  predicate Cascades(spec: FilterSpec)
  {
    spec.dates.Some? || spec.intensities != {}
  }

  /** The keys of the daily logs that pass the filter. */
  function KeptIds(spec: FilterSpec, daily: seq<Row<DailyLog>>): set<int>
  {
    set x | x in daily && DailyKept(spec, x) :: x.id
  }

  /** What a filtered view satisfies: daily rows pass, meals have a selected
      type, and children hang off a kept daily key whenever a step cascades. */
  ghost predicate Satisfies(spec: FilterSpec, db: Db)
  {
    && (forall x :: x in db.daily ==> DailyKept(spec, x))
    && (spec.kinds != {} ==> forall m :: m in db.meals ==> m.data.kind in spec.kinds)
    && (Cascades(spec) ==> forall m :: m in db.meals ==> m.data.parent in Ids(db.daily))
    && (Cascades(spec) ==> forall m :: m in db.measures ==> m.data.parent in Ids(db.daily))
  }

  /** The meals the filter keeps out of `db`, stated row by row. */
  predicate MealKept(spec: FilterSpec, daily: seq<Row<DailyLog>>, m: Row<Meal>)
  {
    && (spec.kinds != {} ==> m.data.kind in spec.kinds)
    && (Cascades(spec) ==> m.data.parent in KeptIds(spec, daily))
  }

  /** The measurements the filter keeps out of `db`, stated row by row. */
  predicate MeasureKept(spec: FilterSpec, daily: seq<Row<DailyLog>>, m: Row<Measurement>)
  {
    Cascades(spec) ==> m.data.parent in KeptIds(spec, daily)
  }

  /** The cascade, step by step as the page runs it. Row by row, exactly the
      daily logs passing the window and the intensity selection survive;
      exactly the meals of a selected type and, when a step cascades, with a
      kept parent; exactly the measurements with a kept parent. */
  function ApplyFilters(spec: FilterSpec, db: Db): (r: Db)
    ensures forall x :: x in r.daily <==> x in db.daily && DailyKept(spec, x)
    ensures Ids(r.daily) == KeptIds(spec, db.daily)
    ensures forall m :: m in r.meals <==> m in db.meals && MealKept(spec, db.daily, m)
    ensures forall m :: m in r.measures <==> m in db.measures && MeasureKept(spec, db.daily, m)
    ensures Satisfies(spec, r)
  {
    var s1 := if spec.dates.Some? then DateStep(db, spec.dates.value) else db;
    var s2 := if spec.kinds != {} then KindStep(s1, spec.kinds) else s1;
    if spec.intensities != {} then IntensityStep(s2, spec.intensities) else s2
  }

  /** Each filtered table is an order-preserving subsequence of its input. */
  lemma FilterIsSubsequence(spec: FilterSpec, db: Db)
    ensures IsSubseq(ApplyFilters(spec, db).daily, db.daily)
    ensures IsSubseq(ApplyFilters(spec, db).meals, db.meals)
    ensures IsSubseq(ApplyFilters(spec, db).measures, db.measures)
  {
    var s1 := if spec.dates.Some? then DateStep(db, spec.dates.value) else db;
    var s2 := if spec.kinds != {} then KindStep(s1, spec.kinds) else s1;
    var s3 := ApplyFilters(spec, db);
    SubseqRefl(db.daily);
    SubseqRefl(db.meals);
    SubseqRefl(db.measures);
    SubseqRefl(s1.meals);
    SubseqRefl(s2.daily);
    SubseqRefl(s2.meals);
    SubseqRefl(s2.measures);
    IsSubseqTrans(s2.daily, s1.daily, db.daily);
    IsSubseqTrans(s3.daily, s2.daily, db.daily);
    IsSubseqTrans(s2.meals, s1.meals, db.meals);
    IsSubseqTrans(s3.meals, s2.meals, db.meals);
    IsSubseqTrans(s2.measures, s1.measures, db.measures);
    IsSubseqTrans(s3.measures, s2.measures, db.measures);
  }

  /** The meal-type selection removes meals only: daily logs and measurements
      are what they would be with no meal-type selection at all. */
  lemma KindFilterOnlyMeals(spec: FilterSpec, db: Db)
    ensures ApplyFilters(spec, db).daily == ApplyFilters(spec.(kinds := {}), db).daily
    ensures ApplyFilters(spec, db).measures == ApplyFilters(spec.(kinds := {}), db).measures
  {
  }

  /** Tables that already satisfy a filter pass through it unchanged. */
  lemma FilterFixesSatisfying(spec: FilterSpec, db: Db)
    requires Satisfies(spec, db)
    ensures ApplyFilters(spec, db) == db
  {
    if spec.dates.Some? {
      var w := spec.dates.value;
      KeepAll(db.daily, (x: Row<DailyLog>) => InWindow(x.data.date, w.start, w.end));
      KeepAll(db.meals, (m: Row<Meal>) => m.data.parent in Ids(db.daily));
      KeepAll(db.measures, (m: Row<Measurement>) => m.data.parent in Ids(db.daily));
      assert DateStep(db, w) == db;
    }
    if spec.kinds != {} {
      KeepAll(db.meals, (m: Row<Meal>) => m.data.kind in spec.kinds);
      assert KindStep(db, spec.kinds) == db;
    }
    if spec.intensities != {} {
      KeepAll(db.daily, (x: Row<DailyLog>) => x.data.intensity in spec.intensities);
      KeepAll(db.meals, (m: Row<Meal>) => m.data.parent in Ids(db.daily));
      KeepAll(db.measures, (m: Row<Measurement>) => m.data.parent in Ids(db.daily));
      assert IntensityStep(db, spec.intensities) == db;
    }
  }

  /** The daily table the cascade returns is one mask over the input: the
      date and intensity steps together keep the same rows, in the same
      order, as the single test `DailyKept`. */
  lemma FilteredDailyIsOneMask(spec: FilterSpec, db: Db)
    ensures ApplyFilters(spec, db).daily == Keep(db.daily, (x: Row<DailyLog>) => DailyKept(spec, x))
  {
    var kept := (x: Row<DailyLog>) => DailyKept(spec, x);
    var inI := (x: Row<DailyLog>) => x.data.intensity in spec.intensities;
    if spec.dates.Some? {
      var w := spec.dates.value;
      var inW := (x: Row<DailyLog>) => InWindow(x.data.date, w.start, w.end);
      if spec.intensities != {} {
        KeepKeep(db.daily, inW, inI, kept);
      } else {
        KeepExt(db.daily, inW, kept);
      }
    } else if spec.intensities != {} {
      KeepExt(db.daily, inI, kept);
    } else {
      KeepAll(db.daily, kept);
    }
  }

  /** Filtering is idempotent. */
  lemma FilterIdempotent(spec: FilterSpec, db: Db)
    ensures ApplyFilters(spec, ApplyFilters(spec, db)) == ApplyFilters(spec, db)
  {
    FilterFixesSatisfying(spec, ApplyFilters(spec, db));
  }
}
