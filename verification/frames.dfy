/** The pandas whole-frame operations the batch job uses: `pd.concat` of the
    per-file frames, `drop_duplicates(subset=key, keep='last')` and
    `drop_duplicates()` on whole rows (keep='first'). */
module Frames {
  import opened Statements

  /** `pd.concat`: the files' rows one after another, in file order. */
  function Concat<T>(files: seq<seq<T>>): seq<T>
  {
    if files == [] then [] else Concat(files[..|files| - 1]) + files[|files| - 1]
  }

  /** Every row of every file is in the concatenation, and nothing else. */
  lemma {:induction false} ConcatMembers<T>(files: seq<seq<T>>)
    ensures forall i, x | 0 <= i < |files| && x in files[i] :: x in Concat(files)
    ensures forall x | x in Concat(files) :: exists i | 0 <= i < |files| :: x in files[i]
  {
    if files != [] {
      var front := files[..|files| - 1];
      ConcatMembers(front);
      assert forall i | 0 <= i < |front| :: files[i] == front[i];
    }
  }

  lemma ConcatOne<T>(f: seq<T>)
    ensures Concat([f]) == f
  {
    assert [f][..0] == [];
  }

  /** The rows whose key is not `k`, in order. */
  function WithoutKey<K(==), V>(rows: seq<(K, V)>, k: K): (r: seq<(K, V)>)
    ensures KeysOf(r) == KeysOf(rows) - {k}
    ensures forall x | x in r :: x in rows
  {
    if rows == [] then []
    else
      var w := WithoutKey(rows[..|rows| - 1], k);
      var x := rows[|rows| - 1];
      if x.0 == k then w
      else
        assert (w + [x])[..|w|] == w;
        w + [x]
  }

  lemma {:induction false} WithoutKeyUnique<K, V>(rows: seq<(K, V)>, k: K)
    requires UniqueKeys(rows)
    ensures UniqueKeys(WithoutKey(rows, k))
  {
    if rows != [] {
      var front, x := rows[..|rows| - 1], rows[|rows| - 1];
      UniqueKeysLast(rows);
      WithoutKeyUnique(front, k);
      if x.0 != k {
        var r := WithoutKey(rows, k);
        assert r[..|r| - 1] == WithoutKey(front, k);
        UniqueKeysLast(r);
      }
    }
  }

  /** Two tables with the same rows under every key but `k`. */
  ghost predicate AgreeExcept<K, V>(a: map<K, V>, b: map<K, V>, k: K)
  {
    && a.Keys - {k} == b.Keys - {k}
    && (forall j | j in a && j in b && j != k :: a[j] == b[j])
  }

  /** Dropping the rows of key `k` changes no other key's upserted row. */
  lemma {:induction false} UpsertAllWithoutKey<K, V>(m: map<K, V>, rows: seq<(K, V)>, k: K)
    ensures AgreeExcept(UpsertAll(m, WithoutKey(rows, k)), UpsertAll(m, rows), k)
  {
    if rows != [] {
      var front, x := rows[..|rows| - 1], rows[|rows| - 1];
      UpsertAllWithoutKey(m, front, k);
      if x.0 != k {
        var w := WithoutKey(front, k);
        assert (w + [x])[..|w|] == w;
      }
    }
  }

  lemma UpsertLastAfterWithoutKey<K, V>(m: map<K, V>, d: seq<(K, V)>, x: (K, V))
    ensures UpsertAll(m, WithoutKey(d, x.0) + [x]) == UpsertAll(m, d)[x.0 := x.1]
  {
    var w := WithoutKey(d, x.0);
    assert (w + [x])[..|w|] == w;
    UpsertAllWithoutKey(m, d, x.0);
  }

  /** `drop_duplicates(subset=key, keep='last')`: one row per key, the last one,
      in the order of those last occurrences. Upserting the result gives the
      same table as upserting every row. */
  function DedupLast<K(==), V>(rows: seq<(K, V)>): (r: seq<(K, V)>)
    ensures UniqueKeys(r) && KeysOf(r) == KeysOf(rows)
    ensures forall x | x in r :: x in rows
    ensures UpsertAll(map[], r) == UpsertAll(map[], rows)
  {
    if rows == [] then []
    else
      var front, x := rows[..|rows| - 1], rows[|rows| - 1];
      var w := WithoutKey(DedupLast(front), x.0);
      var r := w + [x];
      assert r[..|r| - 1] == w;
      WithoutKeyUnique(DedupLast(front), x.0);
      UniqueKeysLast(r);
      UpsertLastAfterWithoutKey(map[], DedupLast(front), x);
      r
  }

  /** Upserting the deduplicated rows into any table has the effect of
      upserting all the rows. */
  lemma {:induction false} DedupLastUpserts<K, V>(m: map<K, V>, rows: seq<(K, V)>)
    ensures UpsertAll(m, DedupLast(rows)) == UpsertAll(m, rows)
  {
    if rows != [] {
      var front, x := rows[..|rows| - 1], rows[|rows| - 1];
      var w := WithoutKey(DedupLast(front), x.0);
      assert DedupLast(rows) == w + [x];
      DedupLastUpserts(m, front);
      UpsertLastAfterWithoutKey(m, DedupLast(front), x);
    }
  }

  /** In rows with unique keys, the row at position `j` is the one a key lookup finds. */
  lemma UniqueLastIndex<K, V>(rows: seq<(K, V)>, j: nat)
    requires UniqueKeys(rows) && j < |rows|
    ensures LastIndex(rows, rows[j].0) == j
  {
  }

  /** After `DedupLast`, the row kept for a key is its last row. */
  lemma DedupLastKeepsLast<K, V>(rows: seq<(K, V)>, k: K)
    requires k in KeysOf(rows)
    ensures k in KeysOf(DedupLast(rows))
    ensures DedupLast(rows)[LastIndex(DedupLast(rows), k)] == rows[LastIndex(rows, k)]
  {
    var d := DedupLast(rows);
    UpsertAllLastWins(map[], d, k);
    UpsertAllLastWins(map[], rows, k);
  }

  /** The keys of `r` come in the order of their last occurrences in `rows`. */
  ghost predicate InLastOrder<K, V>(r: seq<(K, V)>, rows: seq<(K, V)>)
  {
    forall i, j | 0 <= i < j < |r| && r[i].0 in KeysOf(rows) && r[j].0 in KeysOf(rows) ::
      LastIndex(rows, r[i].0) < LastIndex(rows, r[j].0)
  }

  /** Dropping the rows of one key keeps the others in their order. */
  lemma {:induction false} WithoutKeyInLastOrder<K, V>(d: seq<(K, V)>, k: K, rows: seq<(K, V)>)
    requires InLastOrder(d, rows)
    ensures InLastOrder(WithoutKey(d, k), rows)
  {
    if d != [] {
      var front, x := d[..|d| - 1], d[|d| - 1];
      assert forall i | 0 <= i < |front| :: front[i] == d[i];
      WithoutKeyInLastOrder(front, k, rows);
      var w := WithoutKey(front, k);
      if x.0 != k {
        var r := w + [x];
        forall i, j | 0 <= i < j < |r| && r[i].0 in KeysOf(rows) && r[j].0 in KeysOf(rows)
          ensures LastIndex(rows, r[i].0) < LastIndex(rows, r[j].0)
        {
          if j == |w| {
            assert r[i] in front;
            var i2 :| 0 <= i2 < |front| && front[i2] == r[i];
            assert d[i2] == r[i] && d[|d| - 1] == r[j];
          } else {
            assert r[i] == w[i] && r[j] == w[j];
          }
        }
      }
    }
  }

  /** Each row `DedupLast` keeps is the last row of its key. */
  lemma DedupLastRowIsLast<K, V>(rows: seq<(K, V)>, i: nat)
    requires i < |DedupLast(rows)|
    ensures var r := DedupLast(rows);
            r[i].0 in KeysOf(rows) && r[i] == rows[LastIndex(rows, r[i].0)]
  {
    var r := DedupLast(rows);
    UniqueLastIndex(r, i);
    UpsertAllLastWins(map[], r, r[i].0);
    UpsertAllLastWins(map[], rows, r[i].0);
  }

  /** Rows in the last order of all but the last row of `rows`, none with
      the last row's key, followed by that last row, are in the last order of
      `rows`. */
  lemma InLastOrderSnoc<K, V>(w: seq<(K, V)>, rows: seq<(K, V)>)
    requires rows != [] && InLastOrder(w, rows[..|rows| - 1])
    requires forall i | 0 <= i < |w| :: w[i].0 in KeysOf(rows[..|rows| - 1]) && w[i].0 != rows[|rows| - 1].0
    ensures InLastOrder(w + [rows[|rows| - 1]], rows)
  {
    var r := w + [rows[|rows| - 1]];
    forall i, j | 0 <= i < j < |r| && r[i].0 in KeysOf(rows) && r[j].0 in KeysOf(rows)
      ensures LastIndex(rows, r[i].0) < LastIndex(rows, r[j].0)
    {
      assert r[i] == w[i];
      if j < |w| {
        assert r[j] == w[j];
      }
    }
  }

  /** The rows `DedupLast` keeps come in the order of their keys' last rows. */
  lemma {:induction false} DedupLastInLastOrder<K, V>(rows: seq<(K, V)>)
    ensures InLastOrder(DedupLast(rows), rows)
  {
    if rows != [] {
      var n := |rows| - 1;
      var front, x := rows[..n], rows[n];
      var d := DedupLast(front);
      DedupLastInLastOrder(front);
      WithoutKeyInLastOrder(d, x.0, front);
      var w := WithoutKey(d, x.0);
      forall i | 0 <= i < |w|
        ensures w[i].0 in KeysOf(front) && w[i].0 != x.0
      {
        assert w[i].0 in KeysOf(w);
      }
      InLastOrderSnoc(w, rows);
    }
  }

  /** The order `DedupLast` keeps: each kept row is the last row of its key,
      and the kept rows come in the order of those last rows. */
  lemma DedupLastOrder<K, V>(rows: seq<(K, V)>)
    ensures var r := DedupLast(rows);
            forall i | 0 <= i < |r| :: r[i].0 in KeysOf(rows) && r[i] == rows[LastIndex(rows, r[i].0)]
    ensures var r := DedupLast(rows);
            forall i, j | 0 <= i < j < |r| :: LastIndex(rows, r[i].0) < LastIndex(rows, r[j].0)
  {
    var r := DedupLast(rows);
    forall i | 0 <= i < |r|
      ensures r[i].0 in KeysOf(rows) && r[i] == rows[LastIndex(rows, r[i].0)]
    {
      DedupLastRowIsLast(rows, i);
    }
    DedupLastInLastOrder(rows);
  }

  /** `drop_duplicates()` on whole rows: each distinct row once, at its first
      occurrence. */
  function Distinct<T(==)>(s: seq<T>): (r: seq<T>)
    ensures forall i, j | 0 <= i < j < |r| :: r[i] != r[j]
    ensures forall x | x in s :: x in r
    ensures forall x | x in r :: x in s
  {
    if s == [] then []
    else
      var d := Distinct(s[..|s| - 1]);
      if s[|s| - 1] in d then d else d + [s[|s| - 1]]
  }

  /** The position of the first occurrence of `x` in `s`. */
  function FirstOccurrence<T(==)>(s: seq<T>, x: T): (i: nat)
    requires x in s
    ensures i < |s| && s[i] == x && x !in s[..i]
  {
    if s[0] == x then 0
    else
      var i := 1 + FirstOccurrence(s[1..], x);
      assert s[..i] == [s[0]] + s[1..][..i - 1];
      i
  }

  /** Only the first occurrence has no earlier one. */
  lemma FirstOccurrenceUnique<T>(s: seq<T>, x: T, p: nat)
    requires p < |s| && s[p] == x && x !in s[..p]
    ensures FirstOccurrence(s, x) == p
  {
  }

  /** A value of `s`'s front first occurs at the same place in `s`. */
  lemma FirstOccurrenceFront<T>(s: seq<T>, x: T)
    requires s != [] && x in s[..|s| - 1]
    ensures FirstOccurrence(s, x) == FirstOccurrence(s[..|s| - 1], x)
  {
    var front := s[..|s| - 1];
    var p := FirstOccurrence(front, x);
    assert s[..p] == front[..p];
    FirstOccurrenceUnique(s, x, p);
  }

  /** The values of `r` that occur in `s` come in the order of their first
      occurrences in `s`. */
  ghost predicate InFirstOrder<T>(r: seq<T>, s: seq<T>)
  {
    forall i, j | 0 <= i < j < |r| && r[i] in s && r[j] in s ::
      FirstOccurrence(s, r[i]) < FirstOccurrence(s, r[j])
  }

  /** The rows `Distinct` keeps come in the order of their first occurrences. */
  lemma {:induction false} DistinctOrder<T>(s: seq<T>)
    ensures InFirstOrder(Distinct(s), s)
  {
    if s != [] {
      var front, x := s[..|s| - 1], s[|s| - 1];
      var d := Distinct(front);
      var r := Distinct(s);
      DistinctOrder(front);
      forall i, j | 0 <= i < j < |r| && r[i] in s && r[j] in s
        ensures FirstOccurrence(s, r[i]) < FirstOccurrence(s, r[j])
      {
        assert r[i] == d[i] && r[i] in front;
        FirstOccurrenceFront(s, r[i]);
        if j < |d| {
          assert r[j] == d[j] && r[j] in front;
          FirstOccurrenceFront(s, r[j]);
        } else {
          assert r[j] == x && x !in front;
          assert s[..|s| - 1] == front;
          FirstOccurrenceUnique(s, x, |s| - 1);
        }
      }
    }
  }
}
