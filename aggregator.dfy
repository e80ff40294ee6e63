/**
 * The aggregator: three summaries of `Valor_Total_Venda` over the final table,
 * each a `groupby(...).sum()`: by category sorted by revenue descending, the
 * five customer names with the largest revenue, and by (year, month) in
 * ascending key order.
 *
 * A grouped sum is a sequence of (key, sum) pairs with distinct keys, in the
 * order the keys first appear. pandas' sorts are not stable, so the order of
 * equal sums is not modelled: the lemmas state orderings up to ties.
 */
module Aggregator {
  import opened Metrics

  // ------------------------------------------------------- grouped sums

  /** The sum of the values of `s`. */
  function Total<K>(s: seq<(K, real)>): (r: real) {
    if s == [] then 0.0 else s[0].1 + Total(s[1..])
  }

  /** The sum of the values of `pairs` whose key is `k`. */
  function SumOf<K(==)>(pairs: seq<(K, real)>, k: K): (r: real) {
    if pairs == [] then 0.0
    else SumOf(pairs[..|pairs| - 1], k) + (if pairs[|pairs| - 1].0 == k then pairs[|pairs| - 1].1 else 0.0)
  }

  /** Some entry of `s` has key `k`. */
  ghost predicate HasKey<K>(s: seq<(K, real)>, k: K) {
    exists i :: 0 <= i < |s| && s[i].0 == k
  }

  ghost predicate DistinctKeys<K>(s: seq<(K, real)>) {
    forall i, j :: 0 <= i < j < |s| ==> s[i].0 != s[j].0
  }

  /** The position of key `k` in `g`, or -1. */
  function IndexOf<K(==)>(g: seq<(K, real)>, k: K): (i: int)
    ensures -1 <= i < |g|
    ensures i >= 0 ==> g[i].0 == k
    ensures i < 0 ==> !HasKey(g, k)
  {
    if g == [] then -1
    else if g[|g| - 1].0 == k then |g| - 1
    else
      var i := IndexOf(g[..|g| - 1], k);
      assert i < 0 ==> forall j :: 0 <= j < |g| ==> g[j].0 != k by {
        if i < 0 {
          forall j | 0 <= j < |g| - 1 ensures g[j].0 != k {
            assert g[..|g| - 1][j] == g[j];
          }
        }
      }
      i
  }

  /** Add `v` to the sum of group `k`, opening the group if it is new. */
  function Accumulate<K(==)>(g: seq<(K, real)>, k: K, v: real): (r: seq<(K, real)>) {
    var i := IndexOf(g, k);
    if i < 0 then g + [(k, v)] else g[i := (k, g[i].1 + v)]
  }

  /** `groupby(key)[value].sum()` on (key, value) pairs. */
  function GroupSum<K(==)>(pairs: seq<(K, real)>): (r: seq<(K, real)>) {
    if pairs == [] then []
    else Accumulate(GroupSum(pairs[..|pairs| - 1]), pairs[|pairs| - 1].0, pairs[|pairs| - 1].1)
  }

  lemma {:induction false} TotalAppend<K>(a: seq<(K, real)>, b: seq<(K, real)>)
    ensures Total(a + b) == Total(a) + Total(b)
  {
    if a != [] {
      assert (a + b)[1..] == a[1..] + b;
      TotalAppend(a[1..], b);
    } else {
      assert a + b == b;
    }
  }

  lemma {:induction false} TotalUpdate<K>(g: seq<(K, real)>, i: nat, x: (K, real))
    requires i < |g|
    ensures Total(g[i := x]) == Total(g) - g[i].1 + x.1
  {
    if i > 0 {
      assert g[i := x][1..] == g[1..][i - 1 := x];
      TotalUpdate(g[1..], i - 1, x);
    }
  }

  /** Keys absent from `pairs` sum to 0. */
  lemma {:induction false} SumOfAbsent<K>(pairs: seq<(K, real)>, k: K)
    requires !HasKey(pairs, k)
    ensures SumOf(pairs, k) == 0.0
  {
    if pairs != [] {
      var init := pairs[..|pairs| - 1];
      assert !HasKey(init, k) by {
        forall j | 0 <= j < |init| ensures init[j].0 != k {
          assert init[j] == pairs[j];
        }
      }
      SumOfAbsent(init, k);
    }
  }

  /**
   * Accumulating into a table of distinct keys keeps them distinct, adds `k`
   * to its keys and `v` to its total, and adds `v` to the entry of `k` (a new
   * last entry when `k` was absent) leaving every other entry as it was.
   */
  lemma AccumulateSpec<K>(g: seq<(K, real)>, k: K, v: real)
    requires DistinctKeys(g)
    ensures var r := Accumulate(g, k, v);
      DistinctKeys(r) && Total(r) == Total(g) + v &&
      (forall x :: HasKey(r, x) <==> HasKey(g, x) || x == k) &&
      |g| <= |r| <= |g| + 1 &&
      (forall j :: 0 <= j < |g| ==> r[j].0 == g[j].0 && r[j].1 == g[j].1 + (if g[j].0 == k then v else 0.0)) &&
      (|r| == |g| + 1 ==> r[|g|] == (k, v) && !HasKey(g, k))
  {
    var i := IndexOf(g, k);
    var r := Accumulate(g, k, v);
    if i < 0 {
      TotalAppend(g, [(k, v)]);
      forall x | HasKey(r, x) ensures HasKey(g, x) || x == k {
        var j :| 0 <= j < |r| && r[j].0 == x;
        if j < |g| { assert g[j].0 == x; }
      }
      forall x | HasKey(g, x) ensures HasKey(r, x) {
        var j :| 0 <= j < |g| && g[j].0 == x;
        assert r[j].0 == x;
      }
      assert r[|g|].0 == k;
    } else {
      TotalUpdate(g, i, (k, g[i].1 + v));
      forall x | HasKey(r, x) ensures HasKey(g, x) {
        var j :| 0 <= j < |r| && r[j].0 == x;
        assert g[j].0 == x;
      }
      forall x | HasKey(g, x) ensures HasKey(r, x) {
        var j :| 0 <= j < |g| && g[j].0 == x;
        assert r[j].0 == x;
      }
    }
  }

  /**
   * The grouped sum has one entry per distinct key of `pairs`, the entry of
   * key `k` holding the sum of the values with key `k`; so its total is the
   * total of `pairs`.
   */
  lemma {:induction false} GroupSumSpec<K>(pairs: seq<(K, real)>)
    ensures DistinctKeys(GroupSum(pairs))
    ensures forall x :: HasKey(GroupSum(pairs), x) <==> HasKey(pairs, x)
    ensures forall i :: 0 <= i < |GroupSum(pairs)| ==> GroupSum(pairs)[i].1 == SumOf(pairs, GroupSum(pairs)[i].0)
    ensures Total(GroupSum(pairs)) == Total(pairs)
  {
    if pairs != [] {
      var init, k, v := pairs[..|pairs| - 1], pairs[|pairs| - 1].0, pairs[|pairs| - 1].1;
      GroupSumSpec(init);
      assert pairs == init + [(k, v)];
      TotalAppend(init, [(k, v)]);
      var g := GroupSum(init);
      AccumulateSpec(g, k, v);
      var r := GroupSum(pairs);
      forall x ensures HasKey(pairs, x) <==> HasKey(init, x) || x == k {
        if HasKey(pairs, x) {
          var j :| 0 <= j < |pairs| && pairs[j].0 == x;
          if j < |init| { assert init[j].0 == x; }
        }
        if HasKey(init, x) {
          var j :| 0 <= j < |init| && init[j].0 == x;
          assert pairs[j].0 == x;
        }
      }
      forall j | 0 <= j < |r| ensures r[j].1 == SumOf(pairs, r[j].0) {
        if j == |g| {
          SumOfAbsent(init, k);
        }
      }
    }
  }

  // ------------------------------------------------------------ orderings

  /** Sums in non-increasing order. */
  ghost predicate NonIncreasing<K>(s: seq<(K, real)>) {
    forall i, j :: 0 <= i < j < |s| ==> s[i].1 >= s[j].1
  }

  /** Insert `x` before the first entry whose sum it is not smaller than. */
  function InsertDesc<K>(x: (K, real), s: seq<(K, real)>): (r: seq<(K, real)>) {
    if s == [] || x.1 >= s[0].1 then [x] + s else [s[0]] + InsertDesc(x, s[1..])
  }

  /** `sort_values(ascending=False)`: sums in non-increasing order. */
  function SortDesc<K>(s: seq<(K, real)>): (r: seq<(K, real)>) {
    if s == [] then [] else InsertDesc(s[0], SortDesc(s[1..]))
  }

  lemma {:induction false} InsertDescSpec<K>(x: (K, real), s: seq<(K, real)>)
    requires NonIncreasing(s)
    ensures |InsertDesc(x, s)| == |s| + 1
    ensures InsertDesc(x, s)[0] == x || InsertDesc(x, s)[0] == s[0]
    ensures NonIncreasing(InsertDesc(x, s))
  {
    if s == [] || x.1 >= s[0].1 {
      forall j | 0 < j < |s| + 1 ensures x.1 >= ([x] + s)[j].1 {
        assert ([x] + s)[j] == s[j - 1];
      }
    } else {
      var tail := s[1..];
      forall i, j | 0 <= i < j < |tail| ensures tail[i].1 >= tail[j].1 {
        assert tail[i] == s[i + 1] && tail[j] == s[j + 1];
      }
      InsertDescSpec(x, tail);
      var rest := InsertDesc(x, tail);
      assert s[0].1 >= rest[0].1 by {
        if rest[0] != x { assert rest[0] == s[1]; }
      }
      var r := InsertDesc(x, s);
      assert r == [s[0]] + rest;
      forall i, j | 0 <= i < j < |r| ensures r[i].1 >= r[j].1 {
        if i > 0 {
          assert r[i] == rest[i - 1] && r[j] == rest[j - 1];
        } else if j > 1 {
          assert r[j] == rest[j - 1] && rest[0].1 >= rest[j - 1].1;
        }
      }
    }
  }

  lemma {:induction false} InsertDescKeeps<K>(x: (K, real), s: seq<(K, real)>)
    ensures multiset(InsertDesc(x, s)) == multiset(s) + multiset{x}
    ensures Total(InsertDesc(x, s)) == x.1 + Total(s)
  {
    if s != [] && x.1 < s[0].1 {
      InsertDescKeeps(x, s[1..]);
      assert s == [s[0]] + s[1..];
    }
  }

  lemma {:induction false} InsertDescKeys<K>(x: (K, real), s: seq<(K, real)>)
    ensures forall k :: HasKey(InsertDesc(x, s), k) <==> HasKey(s, k) || k == x.0
  {
    var r := InsertDesc(x, s);
    if s == [] || x.1 >= s[0].1 {
      forall k | HasKey(r, k) ensures HasKey(s, k) || k == x.0 {
        var i :| 0 <= i < |r| && r[i].0 == k;
        if i > 0 { assert s[i - 1].0 == k; }
      }
      forall k | HasKey(s, k) ensures HasKey(r, k) {
        var i :| 0 <= i < |s| && s[i].0 == k;
        assert r[i + 1].0 == k;
      }
      assert r[0].0 == x.0;
    } else {
      var tail := s[1..];
      InsertDescKeys(x, tail);
      var rest := InsertDesc(x, tail);
      assert r == [s[0]] + rest;
      forall k | HasKey(r, k) ensures HasKey(s, k) || k == x.0 {
        var i :| 0 <= i < |r| && r[i].0 == k;
        if i > 0 {
          assert rest[i - 1].0 == k;
          if HasKey(tail, k) {
            var m :| 0 <= m < |tail| && tail[m].0 == k;
            assert s[m + 1].0 == k;
          }
        } else {
          assert s[0].0 == k;
        }
      }
      forall k | HasKey(s, k) || k == x.0 ensures HasKey(r, k) {
        if k == x.0 {
          assert HasKey(rest, k);
          var i :| 0 <= i < |rest| && rest[i].0 == k;
          assert r[i + 1].0 == k;
        } else {
          var i :| 0 <= i < |s| && s[i].0 == k;
          if i > 0 {
            assert tail[i - 1].0 == k;
            assert HasKey(tail, k) && HasKey(rest, k);
            var m :| 0 <= m < |rest| && rest[m].0 == k;
            assert r[m + 1].0 == k;
          } else {
            assert r[0].0 == k;
          }
        }
      }
    }
  }

  lemma {:induction false} InsertDescDistinct<K>(x: (K, real), s: seq<(K, real)>)
    requires DistinctKeys(s) && !HasKey(s, x.0)
    ensures DistinctKeys(InsertDesc(x, s))
  {
    var r := InsertDesc(x, s);
    if s == [] || x.1 >= s[0].1 {
      forall i, j | 0 <= i < j < |r| ensures r[i].0 != r[j].0 {
        assert r[j] == s[j - 1];
        if i > 0 { assert r[i] == s[i - 1]; }
      }
    } else {
      var tail := s[1..];
      forall i, j | 0 <= i < j < |tail| ensures tail[i].0 != tail[j].0 {
        assert tail[i] == s[i + 1] && tail[j] == s[j + 1];
      }
      assert !HasKey(tail, x.0) by {
        forall m | 0 <= m < |tail| ensures tail[m].0 != x.0 {
          assert tail[m] == s[m + 1];
        }
      }
      assert !HasKey(tail, s[0].0) by {
        forall m | 0 <= m < |tail| ensures tail[m].0 != s[0].0 {
          assert tail[m] == s[m + 1];
        }
      }
      InsertDescDistinct(x, tail);
      InsertDescKeys(x, tail);
      var rest := InsertDesc(x, tail);
      assert r == [s[0]] + rest;
      assert !HasKey(rest, s[0].0);
      forall i, j | 0 <= i < j < |r| ensures r[i].0 != r[j].0 {
        assert r[j] == rest[j - 1];
        if i > 0 { assert r[i] == rest[i - 1]; }
      }
    }
  }

  lemma {:induction false} SortDescDistinct<K>(s: seq<(K, real)>)
    requires DistinctKeys(s)
    ensures DistinctKeys(SortDesc(s))
  {
    if s != [] {
      var tail := s[1..];
      forall i, j | 0 <= i < j < |tail| ensures tail[i].0 != tail[j].0 {
        assert tail[i] == s[i + 1] && tail[j] == s[j + 1];
      }
      SortDescDistinct(tail);
      SortDescSpec(tail);
      PermutationKeys(SortDesc(tail), tail);
      assert !HasKey(tail, s[0].0) by {
        forall m | 0 <= m < |tail| ensures tail[m].0 != s[0].0 {
          assert tail[m] == s[m + 1];
        }
      }
      InsertDescDistinct(s[0], SortDesc(tail));
    }
  }

  lemma {:induction false} SortDescSpec<K>(s: seq<(K, real)>)
    ensures NonIncreasing(SortDesc(s))
    ensures multiset(SortDesc(s)) == multiset(s)
    ensures |SortDesc(s)| == |s|
    ensures Total(SortDesc(s)) == Total(s)
  {
    if s != [] {
      SortDescSpec(s[1..]);
      InsertDescSpec(s[0], SortDesc(s[1..]));
      InsertDescKeeps(s[0], SortDesc(s[1..]));
      assert s == [s[0]] + s[1..];
    }
  }

  /** (year, month) keys in strictly ascending order. */
  predicate MonthBefore(a: (int, int), b: (int, int)) {
    a.0 < b.0 || (a.0 == b.0 && a.1 < b.1)
  }

  ghost predicate StrictlyAscending(s: seq<((int, int), real)>) {
    forall i, j :: 0 <= i < j < |s| ==> MonthBefore(s[i].0, s[j].0)
  }

  /** Insert `x` before the first entry whose key is not before its key. */
  function InsertByMonth(x: ((int, int), real), s: seq<((int, int), real)>): (r: seq<((int, int), real)>) {
    if s == [] || !MonthBefore(s[0].0, x.0) then [x] + s else [s[0]] + InsertByMonth(x, s[1..])
  }

  /** The key order `groupby` gives a two-level (year, month) index. */
  function SortByMonth(s: seq<((int, int), real)>): (r: seq<((int, int), real)>) {
    if s == [] then [] else InsertByMonth(s[0], SortByMonth(s[1..]))
  }

  lemma {:induction false} InsertByMonthSpec(x: ((int, int), real), s: seq<((int, int), real)>)
    requires StrictlyAscending(s) && !HasKey(s, x.0)
    ensures InsertByMonth(x, s)[0] == x || InsertByMonth(x, s)[0] == s[0]
    ensures StrictlyAscending(InsertByMonth(x, s))
  {
    if s == [] || !MonthBefore(s[0].0, x.0) {
      if s != [] {
        assert s[0].0 != x.0;
        forall j | 0 < j < |s| + 1 ensures MonthBefore(x.0, ([x] + s)[j].0) {
          assert ([x] + s)[j] == s[j - 1];
          if j > 1 { assert MonthBefore(s[0].0, s[j - 1].0); }
        }
      }
    } else {
      var tail := s[1..];
      forall i, j | 0 <= i < j < |tail| ensures MonthBefore(tail[i].0, tail[j].0) {
        assert tail[i] == s[i + 1] && tail[j] == s[j + 1];
      }
      assert !HasKey(tail, x.0) by {
        forall j | 0 <= j < |tail| ensures tail[j].0 != x.0 {
          assert tail[j] == s[j + 1];
        }
      }
      InsertByMonthSpec(x, tail);
      var rest := InsertByMonth(x, tail);
      assert MonthBefore(s[0].0, rest[0].0) by {
        if rest[0] != x { assert rest[0] == s[1]; }
      }
      var r := InsertByMonth(x, s);
      assert r == [s[0]] + rest;
      forall i, j | 0 <= i < j < |r| ensures MonthBefore(r[i].0, r[j].0) {
        if i > 0 {
          assert r[i] == rest[i - 1] && r[j] == rest[j - 1];
        } else if j > 1 {
          assert r[j] == rest[j - 1] && MonthBefore(rest[0].0, rest[j - 1].0);
        }
      }
    }
  }

  lemma {:induction false} InsertByMonthKeeps(x: ((int, int), real), s: seq<((int, int), real)>)
    ensures multiset(InsertByMonth(x, s)) == multiset(s) + multiset{x}
    ensures Total(InsertByMonth(x, s)) == x.1 + Total(s)
  {
    if s != [] && MonthBefore(s[0].0, x.0) {
      InsertByMonthKeeps(x, s[1..]);
      assert s == [s[0]] + s[1..];
    }
  }

  lemma {:induction false} SortByMonthTotal(s: seq<((int, int), real)>)
    ensures Total(SortByMonth(s)) == Total(s)
  {
    if s != [] {
      SortByMonthTotal(s[1..]);
      InsertByMonthKeeps(s[0], SortByMonth(s[1..]));
    }
  }

  lemma {:induction false} SortByMonthSpec(s: seq<((int, int), real)>)
    requires DistinctKeys(s)
    ensures StrictlyAscending(SortByMonth(s))
    ensures multiset(SortByMonth(s)) == multiset(s)
  {
    if s != [] {
      var tail := s[1..];
      assert s == [s[0]] + tail;
      forall i, j | 0 <= i < j < |tail| ensures tail[i].0 != tail[j].0 {
        assert tail[i] == s[i + 1] && tail[j] == s[j + 1];
      }
      SortByMonthSpec(tail);
      var sorted := SortByMonth(tail);
      forall k | 0 <= k < |sorted| ensures sorted[k].0 != s[0].0 {
        InPermutation(sorted, tail, sorted[k]);
        var m :| 0 <= m < |tail| && tail[m] == sorted[k];
        assert s[m + 1] == sorted[k];
      }
      InsertByMonthSpec(s[0], sorted);
      InsertByMonthKeeps(s[0], sorted);
    }
  }

  // ---------------------------------------------------------- the summaries

  /** The total revenue of a table. */
  function Revenue(facts: seq<Fact>): (r: real) {
    if facts == [] then 0.0 else facts[0].totalValue + Revenue(facts[1..])
  }

  function CategoryOf(f: Fact): (r: string) { f.rec.category }
  function CustomerNameOf(f: Fact): (r: string) { f.rec.customerName }
  function MonthOf(f: Fact): (r: (int, int)) { (f.year, f.month) }

  /** The (group key, `Valor_Total_Venda`) pair of every row. */
  function Project<K>(facts: seq<Fact>, key: Fact -> K): (pairs: seq<(K, real)>)
    ensures |pairs| == |facts|
    ensures forall i :: 0 <= i < |facts| ==> pairs[i] == (key(facts[i]), facts[i].totalValue)
  {
    seq(|facts|, i requires 0 <= i < |facts| => (key(facts[i]), facts[i].totalValue))
  }

  /** Line 138: revenue by category, largest first. */
  function RevenueByCategory(facts: seq<Fact>): (r: seq<(string, real)>) {
    SortDesc(GroupSum(Project(facts, CategoryOf)))
  }

  /** The number of customers `nlargest` keeps at line 143. */
  const TopCount: nat := 5

  /** Line 143: the `TopCount` customer names with the largest revenue, largest first. */
  function TopCustomers(facts: seq<Fact>): (r: seq<(string, real)>) {
    var sorted := SortDesc(GroupSum(Project(facts, CustomerNameOf)));
    if |sorted| <= TopCount then sorted else sorted[..TopCount]
  }

  /** Line 148: revenue by (year, month), keys ascending. */
  function MonthlyRevenue(facts: seq<Fact>): (r: seq<((int, int), real)>) {
    SortByMonth(GroupSum(Project(facts, MonthOf)))
  }

  /** The three summaries `transform_data` returns beside the table. */
  datatype Summaries = Summaries(
    revenueByCategory: seq<(string, real)>,
    topCustomers: seq<(string, real)>,
    monthlyRevenue: seq<((int, int), real)>)

  function Summarize(facts: seq<Fact>): (r: Summaries) {
    Summaries(RevenueByCategory(facts), TopCustomers(facts), MonthlyRevenue(facts))
  }

  lemma {:induction false} ProjectTotal<K>(facts: seq<Fact>, key: Fact -> K)
    ensures Total(Project(facts, key)) == Revenue(facts)
  {
    if facts != [] {
      ProjectTotal(facts[1..], key);
      assert Project(facts, key)[1..] == Project(facts[1..], key);
    }
  }

  lemma ProjectKeys<K>(facts: seq<Fact>, key: Fact -> K)
    ensures forall x :: HasKey(Project(facts, key), x) <==> exists i :: 0 <= i < |facts| && key(facts[i]) == x
  {
    var pairs := Project(facts, key);
    forall x ensures HasKey(pairs, x) <==> exists i :: 0 <= i < |facts| && key(facts[i]) == x {
      if exists i :: 0 <= i < |facts| && key(facts[i]) == x {
        var i :| 0 <= i < |facts| && key(facts[i]) == x;
        assert pairs[i].0 == x;
      }
    }
  }

  /** An entry of a permutation of `s` is an entry of `s`. */
  lemma InPermutation<X>(s: seq<X>, t: seq<X>, x: X)
    requires multiset(s) == multiset(t) && x in s
    ensures x in t
  {
    assert x in multiset(s);
  }

  /** A permutation has the same keys. */
  lemma PermutationKeys<K>(s: seq<(K, real)>, t: seq<(K, real)>)
    requires multiset(s) == multiset(t)
    ensures forall x :: HasKey(s, x) <==> HasKey(t, x)
  {
    forall x | HasKey(s, x) ensures HasKey(t, x) {
      var i :| 0 <= i < |s| && s[i].0 == x;
      InPermutation(s, t, s[i]);
    }
    forall x | HasKey(t, x) ensures HasKey(s, x) {
      var i :| 0 <= i < |t| && t[i].0 == x;
      InPermutation(t, s, t[i]);
    }
  }

  /** Every entry of a grouped sum holds the sum of its key's values. */
  lemma GroupEntry<K>(pairs: seq<(K, real)>, e: (K, real))
    requires e in GroupSum(pairs)
    ensures e.1 == SumOf(pairs, e.0)
  {
    GroupSumSpec(pairs);
    var i :| 0 <= i < |GroupSum(pairs)| && GroupSum(pairs)[i] == e;
  }

  /**
   * A reordering of a grouped sum has the grouped sum's keys, which are the
   * keys of `pairs`, and each entry holds its key's sum.
   */
  lemma PermutedGroups<K>(pairs: seq<(K, real)>, v: seq<(K, real)>)
    requires multiset(v) == multiset(GroupSum(pairs))
    ensures forall e :: e in v ==> e.1 == SumOf(pairs, e.0)
    ensures forall x :: HasKey(v, x) <==> HasKey(pairs, x)
  {
    var groups := GroupSum(pairs);
    GroupSumSpec(pairs);
    PermutationKeys(v, groups);
    forall e | e in v ensures e.1 == SumOf(pairs, e.0) {
      InPermutation(v, groups, e);
      GroupEntry(pairs, e);
    }
  }

  /**
   * A grouped sum sorted by sum: non-increasing, one entry for each key of
   * `pairs` holding that key's sum, and the same total as `pairs`.
   */
  lemma SortedGroupsSpec<K>(pairs: seq<(K, real)>)
    ensures NonIncreasing(SortDesc(GroupSum(pairs)))
    ensures DistinctKeys(SortDesc(GroupSum(pairs)))
    ensures multiset(SortDesc(GroupSum(pairs))) == multiset(GroupSum(pairs))
    ensures forall e :: e in SortDesc(GroupSum(pairs)) ==> e.1 == SumOf(pairs, e.0)
    ensures forall x :: HasKey(SortDesc(GroupSum(pairs)), x) <==> HasKey(pairs, x)
    ensures Total(SortDesc(GroupSum(pairs))) == Total(pairs)
  {
    var groups := GroupSum(pairs);
    GroupSumSpec(pairs);
    SortDescSpec(groups);
    SortDescDistinct(groups);
    PermutedGroups(pairs, SortDesc(groups));
  }

  /**
   * A grouped sum over (year, month) keys sorted by key: strictly ascending,
   * a reordering of the grouped sum, with the same total as `pairs`.
   */
  lemma SortedMonthsSpec(pairs: seq<((int, int), real)>)
    ensures StrictlyAscending(SortByMonth(GroupSum(pairs)))
    ensures multiset(SortByMonth(GroupSum(pairs))) == multiset(GroupSum(pairs))
    ensures Total(SortByMonth(GroupSum(pairs))) == Total(pairs)
  {
    var groups := GroupSum(pairs);
    GroupSumSpec(pairs);
    SortByMonthSpec(groups);
    SortByMonthTotal(groups);
  }

  /**
   * Revenue by category: the sums are in non-increasing order; there is an
   * entry for each category present in the table and for no other, holding
   * the revenue of that category's rows; and the sums add up to the table's
   * total revenue.
   */
  lemma RevenueByCategorySpec(facts: seq<Fact>)
    ensures NonIncreasing(RevenueByCategory(facts))
    ensures DistinctKeys(RevenueByCategory(facts))
    ensures forall e :: e in RevenueByCategory(facts) ==> e.1 == SumOf(Project(facts, CategoryOf), e.0)
    ensures forall c :: HasKey(RevenueByCategory(facts), c) <==> exists i :: 0 <= i < |facts| && facts[i].rec.category == c
    ensures Total(RevenueByCategory(facts)) == Revenue(facts)
  {
    var pairs := Project(facts, CategoryOf);
    assert RevenueByCategory(facts) == SortDesc(GroupSum(pairs));
    SortedGroupsSpec(pairs);
    ProjectTotal(facts, CategoryOf);
    ProjectKeys(facts, CategoryOf);
  }

  /**
   * Top customers, their shape: at most five entries (fewer only when there
   * are fewer customer names), distinct names, in non-increasing order.
   */
  lemma TopCustomersOrder(facts: seq<Fact>)
    ensures var all := GroupSum(Project(facts, CustomerNameOf));
      |TopCustomers(facts)| == if |all| <= TopCount then |all| else TopCount
    ensures NonIncreasing(TopCustomers(facts))
    ensures DistinctKeys(TopCustomers(facts))
  {
    var pairs := Project(facts, CustomerNameOf);
    var sorted := SortDesc(GroupSum(pairs));
    var top := TopCustomers(facts);
    SortDescSpec(GroupSum(pairs));
    SortedGroupsSpec(pairs);
    assert top == sorted[..|top|];
    forall i, j | 0 <= i < j < |top| ensures top[i].1 >= top[j].1 && top[i].0 != top[j].0 {
      assert top[i] == sorted[i] && top[j] == sorted[j];
    }
  }

  /**
   * Top customers, their content: each entry is a customer name with its
   * revenue, and no customer left out has a larger revenue than any kept.
   */
  lemma TopCustomersSpec(facts: seq<Fact>)
    ensures forall t :: t in TopCustomers(facts) ==>
              t in GroupSum(Project(facts, CustomerNameOf)) && t.1 == SumOf(Project(facts, CustomerNameOf), t.0)
    ensures forall t, g :: (t in TopCustomers(facts) && g in GroupSum(Project(facts, CustomerNameOf)) &&
              g !in TopCustomers(facts)) ==> t.1 >= g.1
  {
    var pairs := Project(facts, CustomerNameOf);
    var all := GroupSum(pairs);
    var sorted := SortDesc(all);
    var top := TopCustomers(facts);
    SortDescSpec(all);
    assert top == sorted[..|top|];
    forall t | t in top ensures t in all && t.1 == SumOf(pairs, t.0) {
      var i :| 0 <= i < |top| && top[i] == t;
      assert sorted[i] == t;
      InPermutation(sorted, all, t);
      GroupEntry(pairs, t);
    }
    forall t, g | t in top && g in all && g !in top ensures t.1 >= g.1 {
      InPermutation(all, sorted, g);
      var i :| 0 <= i < |top| && top[i] == t;
      var j :| 0 <= j < |sorted| && sorted[j] == g;
      assert sorted[i] == t;
    }
  }

  /**
   * Monthly revenue: keys strictly ascending by (year, month); an entry for
   * each month present in the table and for no other, holding that month's
   * revenue; the sums add up to the table's total revenue.
   */
  lemma MonthlyRevenueSpec(facts: seq<Fact>)
    ensures StrictlyAscending(MonthlyRevenue(facts))
    ensures forall e :: e in MonthlyRevenue(facts) ==> e.1 == SumOf(Project(facts, MonthOf), e.0)
    ensures forall m :: HasKey(MonthlyRevenue(facts), m) <==> exists i :: 0 <= i < |facts| && (facts[i].year, facts[i].month) == m
    ensures Total(MonthlyRevenue(facts)) == Revenue(facts)
  {
    var pairs := Project(facts, MonthOf);
    var v := SortByMonth(GroupSum(pairs));
    assert MonthlyRevenue(facts) == v;
    SortedMonthsSpec(pairs);
    PermutedGroups(pairs, v);
    ProjectTotal(facts, MonthOf);
    ProjectKeys(facts, MonthOf);
    forall m ensures HasKey(v, m) <==> exists i :: 0 <= i < |facts| && (facts[i].year, facts[i].month) == m {
      assert HasKey(pairs, m) <==> exists i :: 0 <= i < |facts| && MonthOf(facts[i]) == m;
    }
  }
}
