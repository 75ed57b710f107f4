/**
 * The static query catalogs: an insertion-ordered dictionary from query id to a
 * payload (SQL text, or a list of probes). Dictionary order is kept because the
 * drivers walk `QUERIES.keys()` / `QUERIES.items()` in declaration order.
 * The catalogs in the runner declare each query id once (DistinctNames); the
 * type does not demand it, so Lookup is stated for the first entry of a name,
 * and LookupInDistinctCatalog gives the dictionary reading when ids are unique.
 */
module Catalog {
  import opened Wrappers

  type Catalog<T> = seq<(string, T)>

  function Names<T>(c: Catalog<T>): (names: seq<string>)
    ensures |names| == |c|
    ensures forall i :: 0 <= i < |c| ==> names[i] == c[i].0
  {
    if c == [] then [] else [c[0].0] + Names(c[1..])
  }

  /** `name in QUERIES` followed by `QUERIES[name]` (the first entry of that name). */
  function Lookup<T>(c: Catalog<T>, name: string): Option<T>
  {
    if c == [] then None
    else if c[0].0 == name then Some(c[0].1)
    else Lookup(c[1..], name)
  }

  /** A name is found exactly when some entry carries it, and then with the first such entry's payload. */
  lemma {:induction false} LookupFindsFirstEntry<T>(c: Catalog<T>, name: string)
    ensures Lookup(c, name).None? <==> forall i :: 0 <= i < |c| ==> c[i].0 != name
    ensures Lookup(c, name).Some? ==>
              exists i :: 0 <= i < |c| && c[i] == (name, Lookup(c, name).value)
                          && forall k :: 0 <= k < i ==> c[k].0 != name
  {
    if c != [] && c[0].0 != name {
      LookupFindsFirstEntry(c[1..], name);
      assert forall i :: 1 <= i < |c| ==> c[i] == c[1..][i - 1];
      if Lookup(c, name).Some? {
        var i :| 0 <= i < |c[1..]| && c[1..][i] == (name, Lookup(c, name).value)
                 && forall k :: 0 <= k < i ==> c[1..][k].0 != name;
        assert c[i + 1] == c[1..][i];
      }
    }
  }

  /** Every query id is declared once, as the keys of a dictionary are. */
  predicate DistinctNames<T>(c: Catalog<T>)
  {
    forall i, j :: 0 <= i < j < |c| ==> c[i].0 != c[j].0
  }

  /** With unique ids, looking up an entry's id yields that entry's own payload. */
  lemma LookupInDistinctCatalog<T>(c: Catalog<T>, i: nat)
    requires DistinctNames(c) && i < |c|
    ensures Lookup(c, c[i].0) == Some(c[i].1)
  {
    LookupFindsFirstEntry(c, c[i].0);
    var k :| 0 <= k < |c| && c[k] == (c[i].0, Lookup(c, c[i].0).value)
             && forall m :: 0 <= m < k ==> c[m].0 != c[i].0;
    assert k == i;
  }

  /**
   * `args.queries if args.queries else list(QUERIES.keys())`: the requested
   * names in the order given, or every catalog name when none (or an empty
   * list) was requested.
   */
  function QueriesToRun<T>(c: Catalog<T>, requested: Option<seq<string>>): (names: seq<string>)
    ensures requested.Some? && requested.value != [] ==> names == requested.value
    ensures requested.None? || requested.value == [] ==> names == Names(c)
  {
    if requested.Some? && requested.value != [] then requested.value else Names(c)
  }

  /**
   * Without a `--queries` list (or with an empty one) nothing in the catalog is
   * skipped and nothing outside it is run: a name is run exactly when looking
   * it up in the catalog succeeds.
   */
  lemma DefaultRunCoversCatalog<T>(c: Catalog<T>, requested: Option<seq<string>>, name: string)
    requires requested.None? || requested.value == []
    ensures name in QueriesToRun(c, requested) <==> Lookup(c, name).Some?
  {
  }
}
