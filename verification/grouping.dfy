/**
 * The `defaultdict(list)` fold shared by every loader of the harness: walk the
 * CSV rows in file order and append each row's sample to its query's list.
 * A loader is described by `sample`, which says which query a row feeds and
 * with what value, or that the row is skipped (None).
 */
module Grouping {
  import opened Wrappers
  import opened Stats

  /** Reference definition: the samples that rows give to query q, in file order. */
  function SamplesFor<R>(rows: seq<R>, sample: R -> Option<(string, real)>, q: string): seq<real>
  {
    if rows == [] then []
    else
      var s := sample(rows[0]);
      (if s.Some? && s.value.0 == q then [s.value.1] else []) + SamplesFor(rows[1..], sample, q)
  }

  /** The queries that at least one row feeds. */
  function KeysOf<R>(rows: seq<R>, sample: R -> Option<(string, real)>): set<string>
  {
    set i | 0 <= i < |rows| && sample(rows[i]).Some? :: sample(rows[i]).value.0
  }

  predicate NonEmptyGroups(groups: map<string, seq<real>>)
  {
    forall q :: q in groups ==> |groups[q]| > 0
  }

  /** One more row extends exactly its own query's list, by exactly its value. */
  lemma {:induction false} SamplesForSnoc<R>(rows: seq<R>, row: R, sample: R -> Option<(string, real)>, q: string)
    ensures SamplesFor(rows + [row], sample, q)
         == SamplesFor(rows, sample, q)
            + (if sample(row).Some? && sample(row).value.0 == q then [sample(row).value.1] else [])
  {
    if rows != [] {
      assert (rows + [row])[1..] == rows[1..] + [row];
      SamplesForSnoc(rows[1..], row, sample, q);
    }
  }

  /** A query that some row feeds has at least one sample. */
  lemma {:induction false} SamplesForNonEmpty<R>(rows: seq<R>, sample: R -> Option<(string, real)>, q: string)
    requires q in KeysOf(rows, sample)
    ensures |SamplesFor(rows, sample, q)| > 0
  {
    var s := sample(rows[0]);
    if !(s.Some? && s.value.0 == q) {
      var i :| 0 <= i < |rows| && sample(rows[i]).Some? && sample(rows[i]).value.0 == q;
      assert rows[1..][i - 1] == rows[i];
      SamplesForNonEmpty(rows[1..], sample, q);
    }
  }

  /** One more row adds at most its own query to the keys. */
  lemma KeysOfSnoc<R>(rows: seq<R>, row: R, sample: R -> Option<(string, real)>)
    ensures KeysOf(rows + [row], sample)
         == KeysOf(rows, sample) + (if sample(row).Some? then {sample(row).value.0} else {})
  {
    var rs := rows + [row];
    assert forall i :: 0 <= i < |rows| ==> rs[i] == rows[i];
    assert rs[|rows|] == row;
  }

  /** A query that no row feeds has no samples. */
  lemma {:induction false} SamplesForOutsideKeys<R>(rows: seq<R>, sample: R -> Option<(string, real)>, q: string)
    requires q !in KeysOf(rows, sample)
    ensures SamplesFor(rows, sample, q) == []
  {
    if rows != [] {
      assert KeysOf(rows[1..], sample) <= KeysOf(rows, sample) by {
        forall k | k in KeysOf(rows[1..], sample) ensures k in KeysOf(rows, sample) {
          var i :| 0 <= i < |rows[1..]| && sample(rows[1..][i]).Some? && sample(rows[1..][i]).value.0 == k;
          assert rows[i + 1] == rows[1..][i];
        }
      }
      assert sample(rows[0]).Some? ==> sample(rows[0]).value.0 in KeysOf(rows, sample);
      SamplesForOutsideKeys(rows[1..], sample, q);
    }
  }

  /** groups holds, for each query the rows in done feed, exactly its samples. */
  predicate Holds<R>(groups: map<string, seq<real>>, done: seq<R>, sample: R -> Option<(string, real)>)
  {
    groups.Keys == KeysOf(done, sample) && forall q :: q in groups ==> groups[q] == SamplesFor(done, sample, q)
  }

  /** `lists[query].append(value)` on a dictionary of lists, for a row that yields a sample. */
  function Appended(groups: map<string, seq<real>>, q: string, v: real): map<string, seq<real>>
  {
    groups[q := (if q in groups then groups[q] else []) + [v]]
  }

  /** One more row keeps the dictionary of lists exact: appended to when it yields a sample, untouched otherwise. */
  lemma GroupStep<R>(groups: map<string, seq<real>>, done: seq<R>, row: R, sample: R -> Option<(string, real)>)
    requires Holds(groups, done, sample)
    ensures sample(row).None? ==> Holds(groups, done + [row], sample)
    ensures sample(row).Some? ==> Holds(Appended(groups, sample(row).value.0, sample(row).value.1), done + [row], sample)
  {
    KeysOfSnoc(done, row, sample);
    var s := sample(row);
    if s.Some? {
      var q := s.value.0;
      if q !in groups { SamplesForOutsideKeys(done, sample, q); }
      var g := Appended(groups, q, s.value.1);
      forall p | p in g ensures g[p] == SamplesFor(done + [row], sample, p) {
        SamplesForSnoc(done, row, sample, p);
      }
    } else {
      forall p | p in groups ensures groups[p] == SamplesFor(done + [row], sample, p) {
        SamplesForSnoc(done, row, sample, p);
      }
    }
  }

  /** The loop of every `load_*`: one pass over the rows, appending into a dictionary of lists. */
  method Group<R>(rows: seq<R>, sample: R -> Option<(string, real)>) returns (groups: map<string, seq<real>>)
    ensures groups.Keys == KeysOf(rows, sample)
    ensures forall q :: q in groups ==> groups[q] == SamplesFor(rows, sample, q)
    ensures NonEmptyGroups(groups)
  {
    groups := map[];
    var i := 0;
    while i < |rows|
      invariant 0 <= i <= |rows|
      invariant Holds(groups, rows[..i], sample)
    {
      var row := rows[i];
      assert rows[..i + 1] == rows[..i] + [row];
      GroupStep(groups, rows[..i], row, sample);
      var s := sample(row);
      if s.Some? {
        var q := s.value.0;
        var prior := if q in groups then groups[q] else [];
        groups := groups[q := prior + [s.value.1]];
      }
      i := i + 1;
    }
    assert rows[..i] == rows;
    forall q | q in groups ensures |groups[q]| > 0 {
      SamplesForNonEmpty(rows, sample, q);
    }
  }

  /** `{q: mean(lists[q]) for q in lists}` */
  function Averages(groups: map<string, seq<real>>): (avg: map<string, real>)
    requires NonEmptyGroups(groups)
    ensures avg.Keys == groups.Keys
  {
    map q | q in groups :: Mean(groups[q])
  }

  /** The dictionary of lists the fold builds, as a value. */
  function GroupOf<R>(rows: seq<R>, sample: R -> Option<(string, real)>): map<string, seq<real>>
  {
    map q | q in KeysOf(rows, sample) :: SamplesFor(rows, sample, q)
  }

  lemma GroupOfNonEmpty<R>(rows: seq<R>, sample: R -> Option<(string, real)>)
    ensures NonEmptyGroups(GroupOf(rows, sample))
  {
    forall q | q in GroupOf(rows, sample) ensures |GroupOf(rows, sample)[q]| > 0 {
      SamplesForNonEmpty(rows, sample, q);
    }
  }

  /** The per-query means a loader returns: the fold followed by `{q: mean(lists[q]) for q in lists}`. */
  function Means<R>(rows: seq<R>, sample: R -> Option<(string, real)>): map<string, real>
  {
    GroupOfNonEmpty(rows, sample);
    Averages(GroupOf(rows, sample))
  }

  /** A query has a mean exactly when some row feeds it, and it is the mean of the samples that feed it. */
  lemma MeansOfSamples<R>(rows: seq<R>, sample: R -> Option<(string, real)>, q: string)
    ensures q in Means(rows, sample) <==> q in KeysOf(rows, sample)
    ensures q in Means(rows, sample) ==>
              |SamplesFor(rows, sample, q)| > 0 && Means(rows, sample)[q] == Mean(SamplesFor(rows, sample, q))
  {
    GroupOfNonEmpty(rows, sample);
  }

  /** The loaders' fold and averaging, step by step. */
  method LoadMeans<R>(rows: seq<R>, sample: R -> Option<(string, real)>) returns (avg: map<string, real>)
    ensures avg == Means(rows, sample)
  {
    var groups := Group(rows, sample);
    assert groups == GroupOf(rows, sample);
    avg := Averages(groups);
  }

  // ---------------------------------------------------------------------------
  // The `defaultdict(dict)` fold of the join-size loaders

  /** `table[query][key] = value` row by row: a later row overwrites an earlier one with the same pair. */
  function Nested<R, K(==), V>(rows: seq<R>, entry: R -> (string, K, V)): map<string, map<K, V>>
  {
    if rows == [] then map[]
    else
      var t := Nested(rows[..|rows| - 1], entry);
      var e := entry(rows[|rows| - 1]);
      t[e.0 := (if e.0 in t then t[e.0] else map[])[e.1 := e.2]]
  }

  /** Row i names (q, k), and no later row names the same pair. */
  ghost predicate LastFor<R, K, V>(rows: seq<R>, entry: R -> (string, K, V), i: int, q: string, k: K)
  {
    0 <= i < |rows| && entry(rows[i]).0 == q && entry(rows[i]).1 == k
    && forall j :: i < j < |rows| ==> !(entry(rows[j]).0 == q && entry(rows[j]).1 == k)
  }

  /** Some row names (q, k). */
  ghost predicate Named<R, K, V>(rows: seq<R>, entry: R -> (string, K, V), q: string, k: K)
  {
    exists i :: 0 <= i < |rows| && entry(rows[i]).0 == q && entry(rows[i]).1 == k
  }

  /** A pair is in the table exactly when some row names it. */
  lemma {:induction false} NestedHoldsNamedPairs<R, K, V>(rows: seq<R>, entry: R -> (string, K, V), q: string, k: K)
    ensures (q in Nested(rows, entry) && k in Nested(rows, entry)[q]) <==> Named(rows, entry, q, k)
  {
    if rows != [] {
      var init := rows[..|rows| - 1];
      var last := |rows| - 1;
      NestedHoldsNamedPairs(init, entry, q, k);
      var e := entry(rows[last]);
      if !(e.0 == q && e.1 == k) {
        if Named(init, entry, q, k) {
          var i :| 0 <= i < |init| && entry(init[i]).0 == q && entry(init[i]).1 == k;
          assert init[i] == rows[i];
        }
        if Named(rows, entry, q, k) {
          var i :| 0 <= i < |rows| && entry(rows[i]).0 == q && entry(rows[i]).1 == k;
          assert i < last && init[i] == rows[i];
        }
      }
    }
  }

  /** A pair in the table holds the value of the last row that names it. */
  lemma {:induction false} NestedLastWins<R, K, V>(rows: seq<R>, entry: R -> (string, K, V), q: string, k: K)
    requires q in Nested(rows, entry) && k in Nested(rows, entry)[q]
    ensures exists i :: LastFor(rows, entry, i, q, k) && Nested(rows, entry)[q][k] == entry(rows[i]).2
  {
    var init := rows[..|rows| - 1];
    var last := |rows| - 1;
    var e := entry(rows[last]);
    if e.0 == q && e.1 == k {
      assert LastFor(rows, entry, last, q, k);
    } else {
      assert q in Nested(init, entry) && k in Nested(init, entry)[q];
      NestedLastWins(init, entry, q, k);
      var i :| LastFor(init, entry, i, q, k) && Nested(init, entry)[q][k] == entry(init[i]).2;
      assert init[i] == rows[i];
      assert LastFor(rows, entry, i, q, k);
    }
  }

  /** Every query in the table has at least one entry. */
  lemma {:induction false} NestedInnerNonEmpty<R, K, V>(rows: seq<R>, entry: R -> (string, K, V), q: string)
    requires q in Nested(rows, entry)
    ensures Nested(rows, entry)[q] != map[]
  {
    var e := entry(rows[|rows| - 1]);
    if e.0 != q {
      NestedInnerNonEmpty(rows[..|rows| - 1], entry, q);
    } else {
      assert e.1 in Nested(rows, entry)[q];
    }
  }

  /** The queries of the table are those some row names. */
  lemma {:induction false} NestedKeys<R, K, V>(rows: seq<R>, entry: R -> (string, K, V), q: string)
    ensures q in Nested(rows, entry) <==> exists i :: 0 <= i < |rows| && entry(rows[i]).0 == q
  {
    if rows != [] {
      var init := rows[..|rows| - 1];
      NestedKeys(init, entry, q);
      if q in Nested(init, entry) {
        var i :| 0 <= i < |init| && entry(init[i]).0 == q;
        assert init[i] == rows[i];
      }
      if exists i :: 0 <= i < |rows| && entry(rows[i]).0 == q {
        var i :| 0 <= i < |rows| && entry(rows[i]).0 == q;
        if i < |rows| - 1 { assert init[i] == rows[i]; }
      }
    }
  }

  /** The loop of the join-size loaders. */
  method GroupNested<R, K(==), V>(rows: seq<R>, entry: R -> (string, K, V)) returns (table: map<string, map<K, V>>)
    ensures table == Nested(rows, entry)
  {
    table := map[];
    var i := 0;
    while i < |rows|
      invariant 0 <= i <= |rows|
      invariant table == Nested(rows[..i], entry)
    {
      assert rows[..i + 1][..i] == rows[..i];
      var e := entry(rows[i]);
      var inner := if e.0 in table then table[e.0] else map[];
      table := table[e.0 := inner[e.1 := e.2]];
      i := i + 1;
    }
    assert rows[..i] == rows;
  }
}
