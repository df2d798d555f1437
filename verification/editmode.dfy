/**
 The edit workflow below the visualisation section: a session flag flipped by
 one button, and, while editing, the list of daily-log keys offered for update
 or delete, read from the filtered daily table.
 */
module EditMode {
  import opened Tables
  import opened Database
  import opened Filters

  /** The session flag `editar`: false is `Viewing`, true is `Editing`. */
  datatype Mode = Viewing | Editing

  /** The flag a fresh session starts with. */
  const initial: Mode := Viewing

  /** One press of the edit button flips the flag. */
  function Press(m: Mode): (r: Mode)
    ensures r != m
  {
    if m == Viewing then Editing else Viewing
  }

  /** The flag after `n` presses in a fresh session. */
  function AfterPresses(n: nat): (r: Mode)
    ensures r == Editing <==> n % 2 == 1
  {
    if n == 0 then initial else Press(AfterPresses(n - 1))
  }

  /** The keys offered for editing, in storage order. They are read from the
      filtered daily table, so a log hidden by the current filter cannot be
      chosen. */
  function EditChoices(spec: FilterSpec, db: Db): (ids: seq<int>)
    ensures forall id :: id in ids <==> id in KeptIds(spec, db.daily)
    ensures forall id :: id in ids ==> id in Ids(db.daily)
    ensures |ids| == |ApplyFilters(spec, db).daily|
    ensures forall i :: 0 <= i < |ids| ==> ids[i] == ApplyFilters(spec, db).daily[i].id
  {
    KeyList(ApplyFilters(spec, db).daily)
  }
}
