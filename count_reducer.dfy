/**
 * CountReducer: sums the values grouped under one key. The job registers the
 * same class as combiner and as reducer, so it also sums partial sums.
 */
module CountReducer {
  import opened Base

  /** The sum of the values, folded from the left as the reducer's loop does. */
  function Sum(values: seq<int>): (s: int)
    ensures (forall i :: 0 <= i < |values| ==> values[i] >= 0) ==> s >= 0
    ensures (forall i :: 0 <= i < |values| ==> values[i] <= 0) ==> s <= 0
  {
    if values == [] then 0 else Sum(values[..|values| - 1]) + values[|values| - 1]
  }

  /** CountReducer.reduce: exactly one pair, the key unchanged and the values summed. */
  method Reduce(key: string, values: seq<int>) returns (out: KeyValue)
    ensures out.key == key
    ensures out.value == Sum(values)
    ensures values == [] ==> out.value == 0
  {
    var total := 0;
    for i := 0 to |values|
      invariant total == Sum(values[..i])
    {
      total := total + values[i];
      assert values[..i + 1][..i] == values[..i];
    }
    assert values[..|values|] == values;
    return KeyValue(key, total);
  }

  /** Summing a concatenation is adding the sums of its parts. */
  lemma {:induction false} SumConcat(a: seq<int>, b: seq<int>)
    ensures Sum(a + b) == Sum(a) + Sum(b)
  {
    if b == [] {
      assert a + b == a;
    } else {
      var init := b[..|b| - 1];
      SumConcat(a, init);
      assert (a + b)[..|a + b| - 1] == a + init;
    }
  }

  /** The sum does not depend on the order in which the values arrive. */
  lemma {:induction false} SumPermutation(a: seq<int>, b: seq<int>)
    requires multiset(a) == multiset(b)
    ensures Sum(a) == Sum(b)
  {
    if a == [] {
      assert |b| == |multiset(b)| == 0;
    } else {
      var n := |a| - 1;
      var x := a[n];
      assert a == a[..n] + [x];
      assert x in multiset(b);
      var j :| 0 <= j < |b| && b[j] == x;
      var rest := b[..j] + b[j + 1..];
      assert b == b[..j] + [x] + b[j + 1..];
      assert multiset(b) == multiset(rest) + multiset{x};
      assert multiset(a) == multiset(a[..n]) + multiset{x};
      assert multiset(a[..n]) == multiset(a) - multiset{x};
      assert multiset(rest) == multiset(b) - multiset{x};
      SumPermutation(a[..n], rest);
      SumConcat(b[..j] + [x], b[j + 1..]);
      SumConcat(b[..j], [x]);
      SumConcat(b[..j], b[j + 1..]);
    }
  }

  /** Counts of contributions: a sum of non-negative values is non-negative, a sum of ones is their number. */
  lemma {:induction false} SumOfCounts(values: seq<int>)
    ensures (forall i :: 0 <= i < |values| ==> values[i] >= 0) ==> Sum(values) >= 0
    ensures (forall i :: 0 <= i < |values| ==> values[i] == 1) ==> Sum(values) == |values|
  {
    if values != [] {
      SumOfCounts(values[..|values| - 1]);
    }
  }

  /** All values of all groups, group after group. */
  function Flatten(groups: seq<seq<int>>): seq<int>
  {
    if groups == [] then [] else Flatten(groups[..|groups| - 1]) + groups[|groups| - 1]
  }

  /** What the combiner emits for each group: that group's sum. */
  function Totals(groups: seq<seq<int>>): (r: seq<int>)
    ensures |r| == |groups|
    ensures forall i :: 0 <= i < |groups| ==> r[i] == Sum(groups[i])
  {
    if groups == [] then [] else Totals(groups[..|groups| - 1]) + [Sum(groups[|groups| - 1])]
  }

  /** Reducing the combiner's partial sums gives the same total as reducing the raw values. */
  lemma {:induction false} CombinerSound(groups: seq<seq<int>>)
    ensures Sum(Totals(groups)) == Sum(Flatten(groups))
  {
    if groups != [] {
      var init := groups[..|groups| - 1];
      CombinerSound(init);
      SumConcat(Flatten(init), groups[|groups| - 1]);
      assert Totals(groups)[..|groups| - 1] == Totals(init);
    }
  }

  /**
   * However the values for a key are split into groups and in whatever order
   * they arrive, combining each group and reducing the partial sums gives the
   * sum of the values.
   */
  lemma CombineAnyGrouping(values: seq<int>, groups: seq<seq<int>>)
    requires multiset(Flatten(groups)) == multiset(values)
    ensures Sum(Totals(groups)) == Sum(values)
  {
    CombinerSound(groups);
    SumPermutation(Flatten(groups), values);
  }
}
