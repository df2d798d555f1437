/**
 Generic tables: an ordered sequence of rows, each carrying an integer primary
 key. The three tables of the health tracker (RegistroDiario, Comida, Medida)
 are all declared `id INTEGER PRIMARY KEY`, so they share the key policy of
 SQLite's rowid: a row inserted without an explicit key receives one more than
 the largest key currently in the table, or 1 when the table is empty.
 */
module Tables {
  import opened Wrappers

  /** A stored row: its primary key and its non-key columns. */
  datatype Row<P> = Row(id: int, data: P)

  /** `a` is an order-preserving subsequence of `b`. */
  ghost predicate IsSubseq<T>(a: seq<T>, b: seq<T>)
    decreases |b|
  {
    if |a| == 0 then true
    else if |b| == 0 then false
    else (a[0] == b[0] && IsSubseq(a[1..], b[1..])) || IsSubseq(a, b[1..])
  }

  /** The rows of `s` that satisfy `p`, in their original order (a boolean
      mask applied to a data frame). */
  function Keep<T(==)>(s: seq<T>, p: T -> bool): (r: seq<T>)
    ensures |r| <= |s|
    ensures forall x :: x in r ==> x in s && p(x)
    ensures forall x :: x in s && p(x) ==> x in r
    ensures IsSubseq(r, s)
  {
    if |s| == 0 then []
    else if p(s[0]) then [s[0]] + Keep(s[1..], p)
    else Keep(s[1..], p)
  }

  /** A mask keeps every passing row as many times as it occurs, and adds no
      copies: a repeated row is not collapsed. */
  lemma {:induction false} KeepCounts<T>(s: seq<T>, p: T -> bool)
    ensures multiset(Keep(s, p)) <= multiset(s)
    ensures forall x :: x in multiset(s) && p(x) ==> multiset(Keep(s, p))[x] == multiset(s)[x]
  {
    if |s| > 0 {
      var rest := Keep(s[1..], p);
      KeepCounts(s[1..], p);
      assert s == [s[0]] + s[1..];
      assert multiset(s) == multiset{s[0]} + multiset(s[1..]);
      if p(s[0]) {
        assert multiset(Keep(s, p)) == multiset{s[0]} + multiset(rest);
      } else {
        assert Keep(s, p) == rest;
      }
    }
  }

  /** Every sequence is a subsequence of itself. */
  lemma {:induction false} SubseqRefl<T>(s: seq<T>)
    ensures IsSubseq(s, s)
  {
    if |s| > 0 {
      SubseqRefl(s[1..]);
    }
  }

  /** Subsequences compose: a subsequence of a subsequence of `c` is one of `c`. */
  lemma {:induction false} IsSubseqTrans<T>(a: seq<T>, b: seq<T>, c: seq<T>)
    requires IsSubseq(a, b) && IsSubseq(b, c)
    ensures IsSubseq(a, c)
    decreases |c|
  {
    if |a| == 0 {
    } else if |b| == 0 {
    } else if b[0] == c[0] && IsSubseq(b[1..], c[1..]) {
      if a[0] == b[0] && IsSubseq(a[1..], b[1..]) {
        IsSubseqTrans(a[1..], b[1..], c[1..]);
      } else {
        IsSubseqTrans(a, b[1..], c[1..]);
      }
    } else {
      IsSubseqTrans(a, b, c[1..]);
    }
  }

  /** A mask every row passes leaves the sequence as it was. */
  lemma {:induction false} KeepAll<T>(s: seq<T>, p: T -> bool)
    requires forall x :: x in s ==> p(x)
    ensures Keep(s, p) == s
  {
    if |s| > 0 {
      assert s[0] in s;
      assert forall x :: x in s[1..] ==> x in s;
      KeepAll(s[1..], p);
      assert [s[0]] + s[1..] == s;
    }
  }

  /** Two masks that agree on every row of `s` select the same rows. */
  lemma {:induction false} KeepExt<T>(s: seq<T>, p: T -> bool, q: T -> bool)
    requires forall x :: x in s ==> p(x) == q(x)
    ensures Keep(s, p) == Keep(s, q)
  {
    if |s| > 0 {
      assert s[0] in s;
      assert forall x :: x in s[1..] ==> x in s;
      KeepExt(s[1..], p, q);
    }
  }

  /** Applying `p` and then `q` is applying their conjunction once. */
  lemma {:induction false} KeepKeep<T>(s: seq<T>, p: T -> bool, q: T -> bool, both: T -> bool)
    requires forall x :: x in s ==> both(x) == (p(x) && q(x))
    ensures Keep(Keep(s, p), q) == Keep(s, both)
  {
    if |s| > 0 {
      assert s[0] in s;
      assert forall x :: x in s[1..] ==> x in s;
      KeepKeep(s[1..], p, q, both);
      if p(s[0]) {
        assert Keep(s, p) == [s[0]] + Keep(s[1..], p);
        assert Keep(s, p)[1..] == Keep(s[1..], p);
      }
    }
  }

  /** The keys present in a table. */
  function Ids<P(==)>(t: seq<Row<P>>): (r: set<int>)
    ensures forall x :: x in t ==> x.id in r
    ensures forall id :: id in r ==> exists x :: x in t && x.id == id
  {
    set x | x in t :: x.id
  }

  /** The key column, in storage order. */
  function KeyList<P>(t: seq<Row<P>>): (r: seq<int>)
    ensures |r| == |t|
    ensures forall i :: 0 <= i < |t| ==> r[i] == t[i].id
    ensures forall id :: id in r <==> id in Ids(t)
  {
    if |t| == 0 then []
    else
      assert forall x :: x in t ==> x == t[0] || x in t[1..];
      [t[0].id] + KeyList(t[1..])
  }

  /** The table invariant: keys are positive and strictly increasing in
      storage order (so, in particular, unique). */
  ghost predicate Wellformed<P>(t: seq<Row<P>>)
  {
    && (forall i :: 0 <= i < |t| ==> t[i].id >= 1)
    && (forall i, j :: 0 <= i < j < |t| ==> t[i].id < t[j].id)
  }

  /** The largest key of a non-empty table. */
  function MaxId<P(==)>(t: seq<Row<P>>): (m: int)
    requires |t| > 0
    ensures forall x :: x in t ==> x.id <= m
    ensures exists x :: x in t && x.id == m
  {
    if |t| == 1 then t[0].id
    else
      var m' := MaxId(t[1..]);
      assert forall x :: x in t[1..] ==> x in t;
      assert forall x :: x in t ==> x == t[0] || x in t[1..];
      if t[0].id >= m' then t[0].id else m'
  }

  /** The key the store hands to the next inserted row. */
  function NextId<P(==)>(t: seq<Row<P>>): (r: int)
    ensures forall x :: x in t ==> x.id < r
    ensures r !in Ids(t)
    ensures |t| == 0 ==> r == 1
    ensures |t| > 0 ==> r - 1 in Ids(t)
  {
    if |t| == 0 then 1 else MaxId(t) + 1
  }

  /** Appends one row under a fresh key. */
  function Insert<P(==)>(t: seq<Row<P>>, data: P): (r: seq<Row<P>>)
    ensures |r| == |t| + 1
    ensures r[..|t|] == t
    ensures r[|t|].data == data
    ensures r[|t|].id == NextId(t)
    ensures r[|t|].id !in Ids(t)
    ensures forall x :: x in t ==> x.id < r[|t|].id
  {
    t + [Row(NextId(t), data)]
  }

  /** Appending keeps the table invariant: the new key is above every key. */
  lemma InsertWellformed<P>(t: seq<Row<P>>, data: P)
    requires Wellformed(t)
    ensures Wellformed(Insert(t, data))
  {
    var r := t + [Row(NextId(t), data)];
    if |t| > 0 {
      assert t[0] in t;
    }
    forall i, j | 0 <= i < j < |r|
      ensures r[i].id < r[j].id
    {
      assert r[i] == t[i];
      if j < |t| {
        assert r[j] == t[j];
      } else {
        assert t[i] in t;
      }
    }
    forall i | 0 <= i < |r|
      ensures r[i].id >= 1
    {
      if i < |t| {
        assert r[i] == t[i];
      }
    }
  }

  /** Full-row overwrite by key: every row whose key is `id` takes the new
      columns and keeps its key; no row matching is not an error. */
  function Overwrite<P(==)>(t: seq<Row<P>>, id: int, data: P): (r: seq<Row<P>>)
    ensures |r| == |t|
    ensures forall i :: 0 <= i < |t| ==> r[i].id == t[i].id
    ensures forall i :: 0 <= i < |t| && t[i].id == id ==> r[i].data == data
    ensures forall i :: 0 <= i < |t| && t[i].id != id ==> r[i] == t[i]
  {
    seq(|t|, i requires 0 <= i < |t| => if t[i].id == id then Row(id, data) else t[i])
  }

  /** Delete by key: drops every row whose key is `id`, keeps the rest in order. */
  function Remove<P(==)>(t: seq<Row<P>>, id: int): (r: seq<Row<P>>)
    ensures forall x :: x in r ==> x in t && x.id != id
    ensures forall x :: x in t && x.id != id ==> x in r
    ensures id !in Ids(r)
    ensures IsSubseq(r, t)
  {
    Keep(t, (x: Row<P>) => x.id != id)
  }

  /** Read-back by key: the columns of the first row with key `id`. */
  function Lookup<P(==)>(t: seq<Row<P>>, id: int): (r: Option<P>)
    ensures r.Some? <==> id in Ids(t)
    ensures r.Some? ==> Row(id, r.value) in t
    ensures r.Some? ==> exists i :: 0 <= i < |t| && t[i] == Row(id, r.value) && forall j :: 0 <= j < i ==> t[j].id != id
  {
    if |t| == 0 then None
    else if t[0].id == id then Some(t[0].data)
    else
      assert forall x :: x in t ==> x == t[0] || x in t[1..];
      var rest := Lookup(t[1..], id);
      if rest.Some? then
        var i :| 0 <= i < |t[1..]| && t[1..][i] == Row(id, rest.value) && forall j :: 0 <= j < i ==> t[1..][j].id != id;
        assert t[i + 1] == Row(id, rest.value);
        rest
      else rest
  }

  /** The tail of a well-formed table is well-formed, and its keys are all
      above the first key. */
  lemma TailWellformed<P>(t: seq<Row<P>>)
    requires Wellformed(t) && |t| > 0
    ensures Wellformed(t[1..])
    ensures forall x :: x in t[1..] ==> t[0].id < x.id
  {
    forall x | x in t[1..]
      ensures t[0].id < x.id
    {
      var k :| 0 <= k < |t| - 1 && t[1..][k] == x;
      assert t[k + 1] == x;
    }
  }

  /** Keeping rows preserves the table invariant. */
  lemma {:induction false} KeepWellformed<P>(t: seq<Row<P>>, p: Row<P> -> bool)
    requires Wellformed(t)
    ensures Wellformed(Keep(t, p))
  {
    if |t| > 0 {
      KeepWellformed(t[1..], p);
      var rest := Keep(t[1..], p);
      if p(t[0]) {
        forall j | 0 <= j < |rest|
          ensures t[0].id < rest[j].id
        {
          assert rest[j] in t[1..];
        }
      }
    }
  }

  /** Removing keeps the table invariant. */
  lemma RemoveWellformed<P>(t: seq<Row<P>>, id: int)
    requires Wellformed(t)
    ensures Wellformed(Remove(t, id))
  {
    KeepWellformed(t, (x: Row<P>) => x.id != id);
  }

  /** Removing an absent key leaves the table as it was. */
  lemma RemoveMissing<P>(t: seq<Row<P>>, id: int)
    requires id !in Ids(t)
    ensures Remove(t, id) == t
  {
    KeepAll(t, (x: Row<P>) => x.id != id);
  }

  /** In a well-formed table, removing a present key drops exactly one row. */
  lemma {:induction false} RemoveCount<P>(t: seq<Row<P>>, id: int)
    requires Wellformed(t)
    requires id in Ids(t)
    ensures |Remove(t, id)| == |t| - 1
  {
    var p := (x: Row<P>) => x.id != id;
    var tail := t[1..];
    TailWellformed(t);
    if t[0].id == id {
      assert Keep(t, p) == Keep(tail, p);
      assert id !in Ids(tail) by {
        forall x | x in tail ensures x.id != id {
        }
      }
      RemoveMissing(tail, id);
      assert Remove(tail, id) == Keep(tail, p);
    } else {
      assert Keep(t, p) == [t[0]] + Keep(tail, p);
      assert id in Ids(tail) by {
        var x :| x in t && x.id == id;
        var j :| 0 <= j < |t| && t[j] == x;
        assert j != 0;
        assert tail[j - 1] == x;
      }
      RemoveCount(tail, id);
      assert Remove(tail, id) == Keep(tail, p);
    }
  }
}
