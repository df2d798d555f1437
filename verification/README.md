# Health tracker record logic in Dafny

A model of the record logic of a single-page personal health tracker. The page
stores three SQLite tables:
- `RegistroDiario`: daily logs of sleep, exercise, water, drinks, weight and body score.
- `Comida`: meals.
- `Medida`: glucose and uric-acid measurements.

Meals and measurements point at a daily log through `registro_diario_id`.
The model keeps the three tables as ordered sequences of rows in one immutable
value (`Database.Db`) and writes every button that changes the tables as a pure
function from the tables before to the tables after. The modelled buttons:
- saving a daily log, a meal or a measurement;
- updating or deleting a daily log.

`Database.SoftReset` models `soft_reset` (health_app.py:178-183). Its button is
commented out at lines 191-192, so the page never runs it.

It also models the three-step filter cascade of the visualisation section
(health_app.py:140-168) and the edit-mode toggle, a button that changes only a
session flag. The filtered measurements feed the two charts (164-168) and the
filtered daily logs feed the edit list (204); the filtered meals are not read
again after line 160. The 'Registros' section (128-137) shows the three tables
unfiltered.

Modules:
- `Wrappers`: `Option`.
- `Tables`: generic rows with an integer primary key. It holds the SQLite
  rowid policy for keys: one more than the largest key, or 1 in an empty table.
  It also holds insert, full-row overwrite, delete by key, read-back by key, and
  `Keep`, the order-preserving boolean mask that every filter step applies.
- `Records`: the non-key columns of each table, the categorical columns as
  enumerations, and ISO dates with Python's text ordering.
- `Database`: parent resolution, the saves, update, delete, reset, and the
  `Linked` invariant (every child points at an existing log with its date).
- `Filters`: the cascade (date window, meal type, intensity) and its
  row-by-row characterisation.
- `EditMode`: the edit flag and the keys offered for editing.
- `Scenarios`: worked examples on concrete tables.

Modelling decisions:
- A new key is one more than the largest key in the table, because the tables
  declare `id INTEGER PRIMARY KEY` without `AUTOINCREMENT`. So after the newest
  daily log is deleted, its key can be handed out again. A meal left orphaned by
  the delete is then silently re-attached to the next daily log saved, whatever
  that log's date. `Scenarios.OrphanIsReadopted` exhibits this.
- The keys offered for editing are read from the filtered daily table:
  health_app.py:204 reads `df_diario` after lines 150 and 158 reassign it.
  `EditMode.EditChoices` follows that.
- `FilterSpec.dates` is an `Option`. This generalises the page, where the window
  is always present because both dates are truthy objects; with `Some` it is the
  page's step at lines 149-152. Children are cut back to surviving parents only
  in the date step and the intensity step. The date step always runs, so the
  filtered tables never hold orphaned children; the unfiltered tables shown at
  lines 133-137 do. Only with `dates := None` and no intensity selection, a
  case the page cannot reach, do orphans stay in the filtered tables.
- `Scenarios` holds worked examples on small concrete tables: a save example,
  a filter example, and examples of update and delete breaking the parent links.

## Model

| member | source | states |
|---|---|---|
| `Tables.NextId` | health_app.py:23 | the new key exceeds every key in the table and is not among them; it is 1 for an empty table and otherwise one more than an existing key |
| `Tables.Keep` | health_app.py:150-160 | the kept rows are exactly the rows of s satisfying p, in their order (an order-preserving subsequence) |
| `Tables.KeepCounts` | health_app.py:150-160 | a row that passes the mask is kept as many times as it occurs in the input, and no row gains copies |
| `Tables.Insert` | health_app.py:81-85 | exactly one row is appended, holding the given columns under the key NextId gives (one above the largest, or 1); the earlier rows are unchanged |
| `Tables.InsertWellformed` | health_app.py:81-85 | appending a row keeps the keys positive and strictly increasing in storage order |
| `Tables.Overwrite` | health_app.py:222-226 | rows with the key take the new columns and keep the key; every other row is unchanged; the length is unchanged |
| `Tables.Remove` | health_app.py:231 | a row survives iff it was present and has another key; the result is an order-preserving subsequence; the key is gone |
| `Tables.RemoveCount` | health_app.py:231 | in a well-formed table (positive keys, strictly increasing in storage order), deleting a present key drops exactly one row |
| `Tables.KeepKeep` | health_app.py:151-160 | two successive masks select the same rows as their conjunction applied once |
| `Tables.IsSubseqTrans` | health_app.py:150-160 | a subsequence of a subsequence is a subsequence, so chained filter steps keep storage order |
| `Database.ResolveParent` | health_app.py:94-95 | the result is absent exactly when no daily log has the date; otherwise it is the largest key among the logs with that date |
| `Database.SaveDailyLog` | health_app.py:80-86 | always succeeds; appends exactly one daily row holding the given columns under the key NextId gives, which is above every existing key; meals and measurements unchanged |
| `Database.SaveMeal` | health_app.py:93-105 | reports NoParentFound exactly when no log has the date, and then nothing changes; otherwise appends one meal whose parent is the latest log of that date, with the given date, type and description, under the next meal key, leaving the other tables unchanged |
| `Database.SaveMeasurement` | health_app.py:113-125 | the same for measurements: error exactly when no log has the date and then no change; otherwise one appended row with the resolved parent, the given date, time and readings |
| `Database.UpdateDailyLog` | health_app.py:222-226 | keys and length unchanged; every row with the key holds the ten new columns; every other row and both child tables are unchanged |
| `Database.DeleteDailyLog` | health_app.py:231 | a daily row survives iff it has another key; order is kept; meals and measurements are untouched |
| `Database.SoftReset` | health_app.py:178-183 | all three tables are empty |
| `Database.LatestLogWins` | health_app.py:94 | right after a daily log is saved, parent resolution for its date returns that log's key |
| `Database.SaveDailyLogPreserves` | health_app.py:81-85 | saving a daily log keeps keys unique and increasing, and keeps every child linked to a log of its date |
| `Database.SaveMealPreserves` | health_app.py:94-102 | saving a meal keeps the key invariant and the Linked invariant |
| `Database.SaveMeasurementPreserves` | health_app.py:114-122 | saving a measurement keeps the key invariant and the Linked invariant |
| `Database.UpdateReadBack` | health_app.py:222-226 | update keeps the key invariant; reading the key back yields exactly the new columns; an unknown key leaves all tables unchanged |
| `Database.DeleteLeavesOrphans` | health_app.py:231 | delete keeps the key invariant; it removes exactly one row for a present key and none for an absent key; every child of the deleted log stays, pointing at a missing key |
| `Database.ResetRestartsKeys` | health_app.py:178-183 | after a reset the tables are valid and linked, and the next daily log gets key 1 |
| `Scenarios.DeleteBreaksLinked` | health_app.py:231 | the Linked invariant holds after a log and its lunch are saved and fails once that log is deleted |
| `Scenarios.UpdateBreaksLinked` | health_app.py:222-226 | changing a parent's date through update leaves its meal linked to a log of another date |
| `Scenarios.OrphanIsReadopted` | health_app.py:23 | deleting the only log and saving another hands out key 1 again, so the orphaned meal now points at the new log of a different date |
| `Scenarios.SaveScenario` | health_app.py:93-105 | with a log for 2024-01-01, a lunch that day is stored under key 1 and a dinner on 2024-01-02 fails with no change |
| `Records.DateLeIsTextOrder` | health_app.py:150 | the date test holds iff the first text is a prefix of the second or is smaller at the first differing character, which is Python's str comparison |
| `Records.DateLeIsTotalOrder` | health_app.py:150 | the date comparison is reflexive, antisymmetric, transitive and total, so the window is an interval of dates |
| `Records.SingleDayWindow` | health_app.py:150 | the one-day window [d, d] admits exactly the date d under text comparison |
| `Filters.ApplyFilters` | health_app.py:149-160 | row by row: daily logs survive iff in the window and of a selected intensity; meals survive iff of a selected type and, when a step cascades, with a kept parent; measurements survive iff, when a step cascades, their parent is kept |
| `Filters.FilteredDailyIsOneMask` | health_app.py:150-158 | the filtered daily table equals the single mask "in the window and of a selected intensity" over the input, so the date and intensity steps compose into one test |
| `Filters.FilterIsSubsequence` | health_app.py:149-160 | each filtered table is an order-preserving subsequence of its input |
| `Filters.KindFilterOnlyMeals` | health_app.py:154-155 | the meal-type selection changes neither the daily logs nor the measurements of the result |
| `Filters.FilterFixesSatisfying` | health_app.py:149-160 | tables that already meet every condition of the filter pass through it unchanged |
| `Filters.FilterIdempotent` | health_app.py:149-160 | filtering the filtered tables again with the same selection returns them unchanged |
| `Scenarios.FilterScenario` | health_app.py:149-160 | window [2024-01-01, 2024-01-01] with intensity Moderate keeps the log of that day and its lunch and drops the low-intensity log of 2024-01-02 |
| `EditMode.Press` | health_app.py:199-200 | each press yields the other mode |
| `EditMode.AfterPresses` | health_app.py:196-200 | a fresh session is editing exactly after an odd number of presses |
| `EditMode.EditChoices` | health_app.py:204 | the keys offered are the key column of the filtered daily table, in its order: exactly the keys of the logs that pass the current filter, all of them stored keys |

## Left out

- Page widgets, layout, the logo and the success and error messages. Only the outcome of a save is modelled: stored, or no parent found.
- The two line charts of glucose and uric acid: a rendering library draws them from the filtered measurements.
- The SQLite connection, cursor, commits and closing. The tables are an in-memory value passed in and returned.
- Schema creation and the deep reset. Dropping and recreating the tables leaves the same empty state as `Database.SoftReset`, so no separate member models it.
- Loading the tables into data frames, and the crash when the sidebar returns a single date instead of a pair.
- Range checks on the sleep score and the float readings: input widgets enforce them, not the record logic. Weight, body score, glucose and uric acid are opaque `real` values.
- Filling the edit form from the selected row, including the error when a stored category is not among the options.
- Deriving the multiselect options from the distinct values of a column. The selections are arbitrary sets here.
- Key exhaustion: SQLite picks a random unused key once the largest key reaches 2^63-1. Keys here are unbounded integers.
- Store failures (write or connection errors). They abort the current action in the page and are not represented.
