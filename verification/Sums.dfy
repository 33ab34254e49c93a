/** SUM(...) over the rows of a keyed table, as the balance guards in the SQL use it. */
module Sums {

  ghost function Total<K, V>(table: map<K, V>, weight: V -> int): int
    decreases |table|
  {
    if table == map[] then 0
    else
      var k :| k in table;
      weight(table[k]) + Total(table - {k}, weight)
  }

  /** Any row may be taken out first: the sum does not depend on the order of the rows. */
  lemma {:induction false} TotalRemove<K, V>(table: map<K, V>, k: K, weight: V -> int)
    requires k in table
    ensures Total(table, weight) == weight(table[k]) + Total(table - {k}, weight)
    decreases |table|
  {
    assert table != map[];
    var first :| first in table && Total(table, weight) == weight(table[first]) + Total(table - {first}, weight);
    if first != k {
      var rest := table - {first};
      TotalRemove(rest, k, weight);
      TotalRemove(table - {k}, first, weight);
      assert rest - {k} == table - {k} - {first};
    }
  }

  /** Writing one row (inserting it or replacing it) changes the sum by that row's difference. */
  lemma TotalWrite<K, V>(table: map<K, V>, k: K, v: V, weight: V -> int)
    ensures Total(table[k := v], weight)
         == Total(table, weight) - (if k in table then weight(table[k]) else 0) + weight(v)
  {
    var written := table[k := v];
    TotalRemove(written, k, weight);
    assert written - {k} == table - {k};
    if k in table {
      TotalRemove(table, k, weight);
    } else {
      assert table - {k} == table;
    }
  }

  /** A sum of non-negative weights bounds each of its terms. */
  lemma {:induction false} TotalBoundsRow<K, V>(table: map<K, V>, weight: V -> int)
    requires forall k :: k in table ==> weight(table[k]) >= 0
    ensures Total(table, weight) >= 0
    ensures forall k :: k in table ==> weight(table[k]) <= Total(table, weight)
    decreases |table|
  {
    forall k | k in table
      ensures weight(table[k]) <= Total(table, weight)
    {
      TotalRemove(table, k, weight);
      TotalBoundsRow(table - {k}, weight);
    }
    if table != map[] {
      var k :| k in table;
      assert weight(table[k]) <= Total(table, weight);
    }
  }

  /** Two weights that agree on every row give the same sum. */
  lemma {:induction false} TotalSame<K, V>(table: map<K, V>, weight: V -> int, other: V -> int)
    requires forall k :: k in table ==> weight(table[k]) == other(table[k])
    ensures Total(table, weight) == Total(table, other)
    decreases |table|
  {
    if table != map[] {
      var k :| k in table;
      TotalRemove(table, k, weight);
      TotalRemove(table, k, other);
      TotalSame(table - {k}, weight, other);
    }
  }

  lemma {:induction false} TotalOfZeroes<K, V>(table: map<K, V>, weight: V -> int)
    requires forall k :: k in table ==> weight(table[k]) == 0
    ensures Total(table, weight) == 0
    decreases |table|
  {
    if table != map[] {
      var k :| k in table;
      TotalRemove(table, k, weight);
      TotalOfZeroes(table - {k}, weight);
    }
  }

  /** Adding up row by row, in any order. */
  method Sum<K, V>(table: map<K, V>, weight: V -> int) returns (sum: int)
    ensures sum == Total(table, weight)
  {
    sum := 0;
    var rest := table;
    while rest != map[]
      invariant sum + Total(rest, weight) == Total(table, weight)
      decreases |rest|
    {
      var k :| k in rest;
      TotalRemove(rest, k, weight);
      sum := sum + weight(rest[k]);
      rest := rest - {k};
    }
  }
}
