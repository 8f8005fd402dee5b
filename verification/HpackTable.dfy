/** The decoder's dynamic table (sections 2.3 and 4 of RFC 7541): newest entry first, evicted
    from the back until the bound fits. */
module HpackTable {
  import opened Bytes

  datatype Field = Field(name: seq<byte>, value: seq<byte>) {
    function Size(): nat { |name| + |value| + 32 }
  }

  function TotalSize(fields: seq<Field>): nat {
    if fields == [] then 0 else fields[0].Size() + TotalSize(fields[1..])
  }

  lemma {:induction false} TotalSizeSnoc(fields: seq<Field>, f: Field)
    ensures TotalSize(fields + [f]) == TotalSize(fields) + f.Size()
  {
    if fields == [] {
      assert [] + [f] == [f] && [f][1..] == [];
    } else {
      assert (fields + [f])[1..] == fields[1..] + [f];
      TotalSizeSnoc(fields[1..], f);
    }
  }

  lemma {:induction false} TotalSizePrefix(fields: seq<Field>, j: nat, k: nat)
    requires j <= k <= |fields|
    ensures TotalSize(fields[..j]) + 32 * (k - j) <= TotalSize(fields[..k])
    decreases k - j
  {
    if j == k {
    } else {
      TotalSizePrefix(fields, j, k - 1);
      NextEntrySize(fields[..k - 1], fields);
    }
  }

  /** `table` is the longest newest-first prefix of the insertion history that fits the bound. */
  ghost predicate LongestFit(table: seq<Field>, history: seq<Field>, bound: nat) {
    && table <= history
    && TotalSize(table) <= bound
    && forall k :: |table| < k <= |history| ==> TotalSize(history[..k]) > bound
  }

  /** There is only one longest fitting prefix. */
  lemma LongestFitUnique(a: seq<Field>, b: seq<Field>, history: seq<Field>, bound: nat)
    requires LongestFit(a, history, bound) && LongestFit(b, history, bound)
    ensures a == b
  {
    assert a == history[..|a|] && b == history[..|b|];
  }

  /** Eviction of a prefix that holds all that fits: the result is the longest fit. */
  function Evicted(table: seq<Field>, bound: nat): seq<Field> {
    if TotalSize(table) > bound && table != [] then Evicted(table[..|table| - 1], bound) else table
  }

  lemma EvictOne(table: seq<Field>, bound: nat)
    requires table != []
    ensures var last := |table| - 1;
            && TotalSize(table) == TotalSize(table[..last]) + table[last].Size()
            && (TotalSize(table) > bound ==> Evicted(table, bound) == Evicted(table[..last], bound))
  {
    var last := |table| - 1;
    assert table == table[..last] + [table[last]];
    TotalSizeSnoc(table[..last], table[last]);
  }

  lemma {:induction false} EvictedIsLongestFit(table: seq<Field>, history: seq<Field>, bound: nat)
    requires table <= history && forall k :: |table| < k <= |history| ==> TotalSize(history[..k]) > bound
    ensures LongestFit(Evicted(table, bound), history, bound)
  {
    if TotalSize(table) > bound && table != [] {
      var shorter := table[..|table| - 1];
      assert table == history[..|table|];
      EvictedIsLongestFit(shorter, history, bound);
    }
  }

  /** Inserting at the front and evicting keeps the longest fit, also for an entry larger than the
      whole bound. */
  lemma InsertKeepsLongestFit(table: seq<Field>, history: seq<Field>, bound: nat, f: Field)
    requires LongestFit(table, history, bound)
    ensures LongestFit(Evicted([f] + table, bound), [f] + history, bound)
  {
    var history' := [f] + history;
    forall k | |[f] + table| < k <= |history'| ensures TotalSize(history'[..k]) > bound {
      assert history'[..k][1..] == history[..k - 1];
    }
    EvictedIsLongestFit([f] + table, history', bound);
  }

  /** Lowering the bound and evicting keeps the longest fit. */
  lemma LowerKeepsLongestFit(table: seq<Field>, history: seq<Field>, bound: nat, bound': nat)
    requires LongestFit(table, history, bound) && bound' <= bound
    ensures LongestFit(Evicted(table, bound'), history, bound')
  {
    EvictedIsLongestFit(table, history, bound');
  }

  /** Changing the bound from outside, without eviction, keeps it exactly when the new bound still
      covers the table and does not reach the first entry already evicted. */
  lemma BareBoundChangeKeepsIff(table: seq<Field>, history: seq<Field>, bound: nat, bound': nat)
    requires LongestFit(table, history, bound)
    ensures LongestFit(table, history, bound') <==>
            TotalSize(table) <= bound' &&
            (|table| < |history| ==> bound' < TotalSize(table) + history[|table|].Size())
  {
    if |table| < |history| {
      var next := TotalSize(table) + history[|table|].Size();
      NextEntryFirst(table, history, next);
      assert LongestFit(table, history, bound') ==> TotalSize(history[..|table| + 1]) > bound';
    }
  }

  /** Among the longer prefixes, the one with the next entry is the smallest. */
  lemma NextEntryFirst(table: seq<Field>, history: seq<Field>, next: nat)
    requires table <= history && |table| < |history| && next == TotalSize(table) + history[|table|].Size()
    ensures TotalSize(history[..|table| + 1]) == next
    ensures forall k :: |table| < k <= |history| ==> next <= TotalSize(history[..k])
  {
    NextEntrySize(table, history);
    forall k | |table| < k <= |history| ensures next <= TotalSize(history[..k]) {
      TotalSizePrefix(history, |table| + 1, k);
    }
  }

  lemma NextEntrySize(table: seq<Field>, history: seq<Field>)
    requires table <= history && |table| < |history|
    ensures TotalSize(history[..|table| + 1]) == TotalSize(table) + history[|table|].Size()
  {
    assert history[..|table| + 1] == table + [history[|table|]];
    TotalSizeSnoc(table, history[|table|]);
  }

  /** Raising the bound after an eviction breaks it: the evicted entry would fit again. */
  lemma RaisedBoundBreaks() returns (table: seq<Field>, history: seq<Field>)
    ensures LongestFit(table, history, 40) && !LongestFit(table, history, 4096)
  {
    var f := Field([], []);
    table, history := [f], [f, f];
    assert TotalSize([f]) == 32 by { assert [f][1..] == []; }
    TotalSizeSnoc([f], f);
    assert history == [f] + [f] && history[..2] == history;
    BareBoundChangeKeepsIff(table, history, 40, 4096);
  }
}
