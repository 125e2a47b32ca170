/**
 * The chart representation every extractor reads: a Python dict from rounded timestamp
 * (seconds) to row string, such as `{1.0: "1000", 1.25: "0010"}`.  A Python dict remembers
 * the order in which its keys were first inserted, and one extractor reads the "first" value,
 * so the model keeps that order beside the contents.
 */
module Charts {
  import opened Sorting

  datatype Chart = Chart(order: seq<real>, rows: map<real, string>) {

    /** Every key appears once in the insertion order, and the order lists exactly the keys. */
    ghost predicate WellFormed() {
      Distinct(order) && forall k :: k in rows <==> k in order
    }

    /**
     * `d[k] = v`: the value at `k` becomes `v`; a new key goes to the end of the insertion
     * order, an existing key keeps its place.
     */
    function Set(k: real, v: string): (c: Chart)
      requires WellFormed()
      ensures c.WellFormed() && c.rows == rows[k := v]
      ensures |c.order| == |order| + (if k in rows then 0 else 1)
      ensures c.order[..|order|] == order
    {
      if k in rows then Chart(order, rows[k := v]) else Chart(order + [k], rows[k := v])
    }
  }

  /** `{}` */
  const Empty: Chart := Chart([], map[])

  /** `sorted(chart.keys())`: the timestamps in strictly increasing order. */
  function SortedKeys(c: Chart): (ts: seq<real>)
    requires c.WellFormed()
    ensures StrictlySorted(ts) && |ts| == |c.order|
    ensures forall k :: k in ts <==> k in c.rows
  {
    var ts := Sort(c.order);
    SortDistinct(c.order);
    assert forall k :: k in ts <==> k in multiset(c.order);
    ts
  }

  /**
   * The sorted timestamps depend on the key set alone: neither the row values nor the order
   * of insertion matter.
   */
  lemma SortedKeysDependOnKeysOnly(c1: Chart, c2: Chart)
    requires c1.WellFormed() && c2.WellFormed()
    requires c1.rows.Keys == c2.rows.Keys
    ensures SortedKeys(c1) == SortedKeys(c2)
  {
    StrictlySortedUnique(SortedKeys(c1), SortedKeys(c2));
  }
}
