/**
 The columns of the three tables of the health tracker. Keys live in
 `Tables.Row`; these datatypes hold the remaining columns. The floating-point
 readings are carried as opaque `real` payload: nothing in the record logic
 computes with them.
 */
module Records {

  /** A calendar date as stored: the ISO text `YYYY-MM-DD`. */
  type Date = string

  /** A time of day as stored: the text `HH:MM:SS`. */
  type Time = string

  /** intensidad_ejercicio: 'Ninguna', 'Baja', 'Moderada', 'Alta'. */
  datatype Intensity = NoExercise | Low | Moderate | High

  /** cantidad_agua: 'Poca', 'Moderada', 'Bastante'. */
  datatype Water = LittleWater | ModerateWater | PlentyWater

  /** bebidas_embrigantes: 'Ninguna', 'Poca', 'Moderada', 'Bastante'. */
  datatype Drinks = NoDrinks | FewDrinks | ModerateDrinks | ManyDrinks

  /** tipo_comida: 'Desayuno', 'Almuerzo', 'Cena'. */
  datatype MealKind = Breakfast | Lunch | Dinner

  /** The ten non-key columns of a RegistroDiario row. */
  datatype DailyLog = DailyLog(
    date: Date,
    sleepScore: int,
    sleepHours: string,
    exerciseType: string,
    intensity: Intensity,
    water: Water,
    drinks: Drinks,
    drinkType: string,
    weight: real,
    bodyScore: real)

  /** The non-key columns of a Comida row; `parent` is registro_diario_id. */
  datatype Meal = Meal(parent: int, date: Date, kind: MealKind, description: string)

  /** The non-key columns of a Medida row; `parent` is registro_diario_id. */
  datatype Measurement = Measurement(parent: int, date: Date, time: Time, glucose: real, uricAcid: real)

  /** Text comparison `a <= b` as Python orders strings: code point by code
      point, a proper prefix before its extensions. On ISO dates this is the
      calendar order. */
  predicate DateLe(a: Date, b: Date)
    decreases |a|
  {
    |a| == 0 || (|b| > 0 && (a[0] < b[0] || (a[0] == b[0] && DateLe(a[1..], b[1..]))))
  }

  /** The closed window test `lo <= d <= hi` applied to daily logs. */
  predicate InWindow(d: Date, lo: Date, hi: Date)
  {
    DateLe(lo, d) && DateLe(d, hi)
  }

  lemma {:induction false} DateLeReflexive(a: Date)
    ensures DateLe(a, a)
  {
    if |a| > 0 {
      DateLeReflexive(a[1..]);
    }
  }

  lemma {:induction false} DateLeAntisymmetric(a: Date, b: Date)
    requires DateLe(a, b) && DateLe(b, a)
    ensures a == b
  {
    if |a| > 0 {
      DateLeAntisymmetric(a[1..], b[1..]);
      assert a == [a[0]] + a[1..];
      assert b == [b[0]] + b[1..];
    }
  }

  lemma {:induction false} DateLeTransitive(a: Date, b: Date, c: Date)
    requires DateLe(a, b) && DateLe(b, c)
    ensures DateLe(a, c)
  {
    if |a| > 0 && a[0] == b[0] && b[0] == c[0] {
      DateLeTransitive(a[1..], b[1..], c[1..]);
    }
  }

  lemma {:induction false} DateLeTotal(a: Date, b: Date)
    ensures DateLe(a, b) || DateLe(b, a)
  {
    if |a| > 0 && |b| > 0 && a[0] == b[0] {
      DateLeTotal(a[1..], b[1..]);
    }
  }

  /** A one-day window `[d, d]` admits exactly the date `d`. */
  lemma SingleDayWindow(x: Date, d: Date)
    ensures InWindow(x, d, d) <==> x == d
  {
    if InWindow(x, d, d) {
      DateLeAntisymmetric(x, d);
    }
    if x == d {
      DateLeReflexive(d);
    }
  }

  /** At the first position where `a` and `b` differ, `a` has the smaller
      character. */
  ghost predicate SmallerAtFirstDifference(a: Date, b: Date)
  {
    exists k :: 0 <= k < |a| && k < |b| && a[..k] == b[..k] && a[k] < b[k]
  }

  /** Two texts with the same first character compare as their tails. */
  lemma SameHeadCompare(a: Date, b: Date)
    requires |a| > 0 && |b| > 0 && a[0] == b[0]
    ensures (a <= b) <==> (a[1..] <= b[1..])
    ensures SmallerAtFirstDifference(a, b) <==> SmallerAtFirstDifference(a[1..], b[1..])
  {
    assert a == [a[0]] + a[1..];
    assert b == [b[0]] + b[1..];
    if SmallerAtFirstDifference(a[1..], b[1..]) {
      var k :| 0 <= k < |a[1..]| && k < |b[1..]| && a[1..][..k] == b[1..][..k] && a[1..][k] < b[1..][k];
      assert a[..k + 1] == [a[0]] + a[1..][..k];
      assert b[..k + 1] == [b[0]] + b[1..][..k];
    }
    if SmallerAtFirstDifference(a, b) {
      var k :| 0 <= k < |a| && k < |b| && a[..k] == b[..k] && a[k] < b[k];
      assert k != 0;
      assert a[1..][..k - 1] == a[..k][1..];
      assert b[1..][..k - 1] == b[..k][1..];
    }
  }

  /** A text whose first character is larger is neither a prefix nor
      smaller at the first difference. */
  lemma LargerHeadCompare(a: Date, b: Date)
    requires |a| > 0 && |b| > 0 && a[0] > b[0]
    ensures !(a <= b) && !SmallerAtFirstDifference(a, b)
  {
    if a <= b {
      assert false;
    }
    if SmallerAtFirstDifference(a, b) {
      var k :| 0 <= k < |a| && k < |b| && a[..k] == b[..k] && a[k] < b[k];
      assert false;
    }
  }

  /** `DateLe` is Python's text order: `a` is a prefix of `b`, or `a` is
      smaller at the first position where the two differ. */
  lemma {:induction false} DateLeIsTextOrder(a: Date, b: Date)
    ensures DateLe(a, b) <==> (a <= b || SmallerAtFirstDifference(a, b))
    decreases |a|
  {
    if |a| == 0 {
    } else if |b| == 0 {
    } else if a[0] < b[0] {
      assert a[..0] == b[..0];
    } else if a[0] == b[0] {
      DateLeIsTextOrder(a[1..], b[1..]);
      SameHeadCompare(a, b);
    } else {
      LargerHeadCompare(a, b);
    }
  }

  /** `DateLe` is a total order, so the window test at the sidebar selects
      an interval. */
  lemma DateLeIsTotalOrder(a: Date, b: Date, c: Date)
    ensures DateLe(a, a)
    ensures DateLe(a, b) && DateLe(b, a) ==> a == b
    ensures DateLe(a, b) && DateLe(b, c) ==> DateLe(a, c)
    ensures DateLe(a, b) || DateLe(b, a)
  {
    DateLeReflexive(a);
    DateLeTotal(a, b);
    if DateLe(a, b) && DateLe(b, a) {
      DateLeAntisymmetric(a, b);
    }
    if DateLe(a, b) && DateLe(b, c) {
      DateLeTransitive(a, b, c);
    }
  }
}
