/** `get_top_plants` and `get_yearly_trend`: the two summary views of a cleaned table. */
module Aggregation {
  import opened Seqs
  import opened Records
  import opened Grouping

  /** One row of the top-plants view. */
  datatype PlantTotal = PlantTotal(plant: string, total: real)

  /** One row of the yearly-trend view. */
  datatype YearTotal = YearTotal(year: int, total: real)

  predicate NonIncreasing(s: seq<PlantTotal>) {
    forall i, j :: 0 <= i < j < |s| ==> s[i].total >= s[j].total
  }

  predicate DistinctPlants(s: seq<PlantTotal>) {
    forall i, j :: 0 <= i < j < |s| ==> s[i].plant != s[j].plant
  }

  function PlantsOf(s: seq<PlantTotal>): set<string> {
    set e | e in s :: e.plant
  }

  function SumTotals(s: seq<PlantTotal>): real {
    if s == [] then 0.0 else s[0].total + SumTotals(s[1..])
  }

  /** `groupby('plant_name')['harm_value'].sum()`: one entry per plant with its summed harm. */
  function PlantGroups(rows: seq<Row>): (g: seq<PlantTotal>)
    ensures |g| == |KeySet(rows, PlantKey)|
    ensures DistinctPlants(g)
    ensures PlantsOf(g) == KeySet(rows, PlantKey)
    ensures forall e :: e in g ==> e.total == SumFor(rows, PlantKey, e.plant)
    ensures SumTotals(g) == TotalKeyed(rows, PlantKey)
  {
    var ks := Keys(rows, PlantKey);
    var g := seq(|ks|, i requires 0 <= i < |ks| => PlantTotal(ks[i], SumFor(rows, PlantKey, ks[i])));
    assert PlantsOf(g) == KeySet(rows, PlantKey) by {
      forall p | p in KeySet(rows, PlantKey) ensures p in PlantsOf(g) {
        var i :| 0 <= i < |ks| && ks[i] == p;
        assert g[i] in g;
      }
    }
    PlantGroupsSum(rows, ks);
    Conservation(rows, PlantKey, ks);
    g
  }

  /** The totals of the plant entries add up to the summed group sums. */
  lemma {:induction false} PlantGroupsSum(rows: seq<Row>, ks: seq<string>)
    ensures SumTotals(seq(|ks|, i requires 0 <= i < |ks| => PlantTotal(ks[i], SumFor(rows, PlantKey, ks[i]))))
         == SumOfGroups(rows, PlantKey, ks)
  {
    var g := seq(|ks|, i requires 0 <= i < |ks| => PlantTotal(ks[i], SumFor(rows, PlantKey, ks[i])));
    if ks != [] {
      PlantGroupsSum(rows, ks[1..]);
      assert g[1..] == seq(|ks[1..]|, i requires 0 <= i < |ks[1..]| => PlantTotal(ks[1..][i], SumFor(rows, PlantKey, ks[1..][i])));
    }
  }

  /** Insert into a list ordered by descending total. */
  function InsertByTotal(x: PlantTotal, s: seq<PlantTotal>): (r: seq<PlantTotal>)
    requires NonIncreasing(s)
    ensures NonIncreasing(r)
    ensures multiset(r) == multiset(s) + multiset{x}
    ensures DistinctPlants(s) && x.plant !in PlantsOf(s) ==> DistinctPlants(r)
  {
    if s == [] then [x]
    else if x.total >= s[0].total then
      InsertFrontDistinct(x, s);
      [x] + s
    else
      var t := InsertByTotal(x, s[1..]);
      InsertStep(x, s, t);
      [s[0]] + t
  }

  /** Putting a new plant in front of a list with distinct plant names keeps them distinct. */
  lemma InsertFrontDistinct(x: PlantTotal, s: seq<PlantTotal>)
    ensures DistinctPlants(s) && x.plant !in PlantsOf(s) ==> DistinctPlants([x] + s)
  {
  }

  /** Putting the head back in front of the recursive insertion keeps the order and distinct plant names. */
  lemma InsertStep(x: PlantTotal, s: seq<PlantTotal>, t: seq<PlantTotal>)
    requires s != [] && x.total < s[0].total
    requires NonIncreasing(s) && NonIncreasing(t)
    requires multiset(t) == multiset(s[1..]) + multiset{x}
    requires DistinctPlants(s[1..]) && x.plant !in PlantsOf(s[1..]) ==> DistinctPlants(t)
    ensures NonIncreasing([s[0]] + t)
    ensures multiset([s[0]] + t) == multiset(s) + multiset{x}
    ensures DistinctPlants(s) && x.plant !in PlantsOf(s) ==> DistinctPlants([s[0]] + t)
  {
    assert s == [s[0]] + s[1..];
    InsertedMembers(x, s[1..], t);
    HeadDominates(s);
    forall k | 0 <= k < |t| ensures s[0].total >= t[k].total {
    }
    if DistinctPlants(s) && x.plant !in PlantsOf(s) {
      PlantsOfTail(s);
      HeadUnique(s);
      assert s[0] in s;
      forall k | 0 <= k < |t| ensures t[k].plant != s[0].plant {
      }
    }
  }

  /** An insertion's entries are the new entry or old ones. */
  lemma InsertedMembers(x: PlantTotal, s: seq<PlantTotal>, t: seq<PlantTotal>)
    requires multiset(t) == multiset(s) + multiset{x}
    ensures forall k :: 0 <= k < |t| ==> t[k] == x || t[k] in s
  {
    forall k | 0 <= k < |t| ensures t[k] == x || t[k] in s {
      assert t[k] in multiset(t);
    }
  }

  /** In a list sorted by descending total the head is at least every later entry. */
  lemma HeadDominates(s: seq<PlantTotal>)
    requires s != [] && NonIncreasing(s)
    ensures forall e :: e in s[1..] ==> s[0].total >= e.total
  {
  }

  /** With distinct plant names the head's plant occurs nowhere later. */
  lemma HeadUnique(s: seq<PlantTotal>)
    requires s != [] && DistinctPlants(s)
    ensures forall e :: e in s[1..] ==> s[0].plant != e.plant
  {
  }

  /** The plants of a tail are plants of the whole list. */
  lemma PlantsOfTail(s: seq<PlantTotal>)
    requires s != []
    ensures PlantsOf(s[1..]) <= PlantsOf(s)
  {
  }

  /**
   * `sort_values(ascending=False)`: a rearrangement of the groups with totals
   * non-increasing. The order among equal totals is not specified.
   */
  function SortByTotal(s: seq<PlantTotal>): (r: seq<PlantTotal>)
    ensures NonIncreasing(r)
    ensures multiset(r) == multiset(s)
    ensures DistinctPlants(s) ==> DistinctPlants(r)
  {
    if s == [] then []
    else
      var t := SortByTotal(s[1..]);
      assert s == [s[0]] + s[1..];
      SortStepDistinct(s, t);
      InsertByTotal(s[0], t)
  }

  /** The head of a list with distinct plant names is not among the plants of the sorted tail. */
  lemma SortStepDistinct(s: seq<PlantTotal>, t: seq<PlantTotal>)
    requires s != []
    requires multiset(t) == multiset(s[1..])
    ensures DistinctPlants(s) ==> s[0].plant !in PlantsOf(t)
  {
    if DistinctPlants(s) {
      SameElementsSamePlants(t, s[1..]);
    }
  }

  /** Rearrangements have the same plants. */
  lemma SameElementsSamePlants(a: seq<PlantTotal>, b: seq<PlantTotal>)
    requires multiset(a) == multiset(b)
    ensures PlantsOf(a) == PlantsOf(b)
  {
    forall p | p in PlantsOf(a) ensures p in PlantsOf(b) {
      var e :| e in a && e.plant == p;
      assert e in multiset(b);
    }
    forall p | p in PlantsOf(b) ensures p in PlantsOf(a) {
      var e :| e in b && e.plant == p;
      assert e in multiset(a);
    }
  }

  /**
   * `get_top_plants`: the `n` plants (5 by default) with the largest summed
   * harm, largest first, each with the sum of harm over all its rows. A
   * negative `n` keeps all plants but the `-n` smallest, as `head(n)` does.
   */
  function TopPlants(rows: seq<Row>, n: int := 5): (r: seq<PlantTotal>)
    ensures n >= 0 ==> |r| == Min(n, |KeySet(rows, PlantKey)|)
    ensures n < 0 ==> |KeySet(rows, PlantKey)| - |r| == Min(-n, |KeySet(rows, PlantKey)|)
    ensures DistinctPlants(r)
    ensures NonIncreasing(r)
    ensures forall e :: e in r ==> e.plant in KeySet(rows, PlantKey) && e.total == SumFor(rows, PlantKey, e.plant)
    ensures forall e, p :: e in r && p in KeySet(rows, PlantKey) && p !in PlantsOf(r) ==>
      e.total >= SumFor(rows, PlantKey, p)
  {
    var g := PlantGroups(rows);
    var sorted := SortByTotal(g);
    SortedGroups(rows, g, sorted);
    HeadSelects(sorted, n);
    Head(sorted, n)
  }

  /** The sorted groups are the groups: same length, same plants, same totals. */
  lemma SortedGroups(rows: seq<Row>, g: seq<PlantTotal>, sorted: seq<PlantTotal>)
    requires g == PlantGroups(rows)
    requires multiset(sorted) == multiset(g)
    ensures |sorted| == |KeySet(rows, PlantKey)|
    ensures PlantsOf(sorted) == KeySet(rows, PlantKey)
    ensures forall e :: e in sorted ==> e.plant in KeySet(rows, PlantKey) && e.total == SumFor(rows, PlantKey, e.plant)
  {
    assert |multiset(sorted)| == |multiset(g)|;
    SameElementsSamePlants(sorted, g);
    forall e | e in sorted ensures e.plant in KeySet(rows, PlantKey) && e.total == SumFor(rows, PlantKey, e.plant) {
      assert e in multiset(sorted);
      assert e in g;
    }
  }

  /**
   * A prefix of a list sorted by descending total holds the largest totals:
   * every entry kept is at least every plant's entry left out.
   */
  lemma HeadSelects(sorted: seq<PlantTotal>, n: int)
    requires NonIncreasing(sorted)
    ensures forall e, d :: e in Head(sorted, n) && d in sorted && d.plant !in PlantsOf(Head(sorted, n)) ==>
      e.total >= d.total
  {
  }

  /** Sums agree on rearrangements. */
  lemma {:induction false} SumTotalsPermutation(a: seq<PlantTotal>, b: seq<PlantTotal>)
    requires multiset(a) == multiset(b)
    ensures SumTotals(a) == SumTotals(b)
    decreases |a|
  {
    if a != [] {
      assert a[0] in multiset(b);
      var i :| 0 <= i < |b| && b[i] == a[0];
      var rest := b[..i] + b[i + 1..];
      RemoveMatched(a, b, i);
      SumTotalsPermutation(a[1..], rest);
      SumTotalsRemove(b, i);
    }
  }

  /** Removing the same element from both sides of a rearrangement leaves a rearrangement. */
  lemma RemoveMatched(a: seq<PlantTotal>, b: seq<PlantTotal>, i: nat)
    requires multiset(a) == multiset(b)
    requires a != [] && i < |b| && b[i] == a[0]
    ensures multiset(a[1..]) == multiset(b[..i] + b[i + 1..])
  {
    var rest := b[..i] + b[i + 1..];
    assert a == [a[0]] + a[1..];
    assert b == b[..i] + [b[i]] + b[i + 1..];
    assert multiset(a) == multiset{a[0]} + multiset(a[1..]);
    assert multiset(b) == multiset{a[0]} + multiset(rest);
    forall z ensures multiset(a[1..])[z] == multiset(rest)[z] {
      assert (multiset{a[0]} + multiset(a[1..]))[z] == (multiset{a[0]} + multiset(rest))[z];
    }
  }

  /** Taking one entry out of a list takes its total out of the sum. */
  lemma {:induction false} SumTotalsRemove(b: seq<PlantTotal>, i: nat)
    requires i < |b|
    ensures SumTotals(b) == b[i].total + SumTotals(b[..i] + b[i + 1..])
  {
    if i > 0 {
      SumTotalsRemove(b[1..], i - 1);
      assert b[1..][..i - 1] + b[1..][i..] == (b[..i] + b[i + 1..])[1..];
    } else {
      assert b[..i] + b[i + 1..] == b[1..];
    }
  }

  /**
   * When every plant fits in the view, its totals add up to the harm of all
   * rows that carry a plant name: the view loses no mass.
   */
  lemma TopPlantsConservation(rows: seq<Row>, n: int)
    requires n >= |KeySet(rows, PlantKey)|
    ensures SumTotals(TopPlants(rows, n)) == TotalKeyed(rows, PlantKey)
  {
    var g := PlantGroups(rows);
    var sorted := SortByTotal(g);
    assert |sorted| == |g| by {
      assert |multiset(sorted)| == |multiset(g)|;
    }
    assert TopPlants(rows, n) == sorted;
    SumTotalsPermutation(sorted, g);
  }

  predicate Increasing(s: seq<int>) {
    forall i, j :: 0 <= i < j < |s| ==> s[i] < s[j]
  }

  /** Insert a year into a strictly increasing list of years, keeping each year once. */
  function InsertYear(y: int, s: seq<int>): (r: seq<int>)
    requires Increasing(s)
    ensures Increasing(r)
    ensures forall z :: z in r <==> z == y || z in s
  {
    if s == [] then [y]
    else if y < s[0] then [y] + s
    else if y == s[0] then s
    else
      var t := InsertYear(y, s[1..]);
      assert forall k :: 0 <= k < |t| ==> s[0] < t[k] by {
        forall k | 0 <= k < |t| ensures s[0] < t[k] {
          assert t[k] in t;
        }
      }
      [s[0]] + t
  }

  /** The years in ascending order, each once (pandas orders group keys). */
  function SortYears(ys: seq<int>): (r: seq<int>)
    ensures Increasing(r)
    ensures forall z :: z in r <==> z in ys
  {
    if ys == [] then [] else InsertYear(ys[0], SortYears(ys[1..]))
  }

  /** The same fold as `SumTotals`, over year entries; the two entry types differ only in their key. */
  function SumYearTotals(s: seq<YearTotal>): real {
    if s == [] then 0.0 else s[0].total + SumYearTotals(s[1..])
  }

  function YearRows(rows: seq<Row>, ys: seq<int>): (r: seq<YearTotal>)
    ensures |r| == |ys|
    ensures forall i :: 0 <= i < |ys| ==> r[i].year == ys[i]
    ensures forall e :: e in r ==> e.total == SumFor(rows, YearKey, e.year)
    ensures SumYearTotals(r) == SumOfGroups(rows, YearKey, ys)
  {
    if ys == [] then [] else [YearTotal(ys[0], SumFor(rows, YearKey, ys[0]))] + YearRows(rows, ys[1..])
  }

  /**
   * `get_yearly_trend`: one entry per calendar year present, in strictly
   * increasing year order, with the harm summed over that year's rows; the
   * entries add up to the harm of all dated rows.
   */
  function YearlyTrend(rows: seq<Row>): (r: seq<YearTotal>)
    ensures forall i, j :: 0 <= i < j < |r| ==> r[i].year < r[j].year
    ensures forall i :: 0 <= i < |r| ==> r[i].year in KeySet(rows, YearKey)
    ensures forall y :: y in KeySet(rows, YearKey) ==> exists i :: 0 <= i < |r| && r[i].year == y
    ensures forall e :: e in r ==> e.total == SumFor(rows, YearKey, e.year)
    ensures SumYearTotals(r) == TotalKeyed(rows, YearKey)
  {
    var ys := SortYears(Keys(rows, YearKey));
    assert Distinct(ys);
    Conservation(rows, YearKey, ys);
    var r := YearRows(rows, ys);
    assert forall y :: y in KeySet(rows, YearKey) ==> exists i :: 0 <= i < |r| && r[i].year == y by {
      forall y | y in KeySet(rows, YearKey) ensures exists i :: 0 <= i < |r| && r[i].year == y {
        var i :| 0 <= i < |ys| && ys[i] == y;
        assert r[i].year == y;
      }
    }
    r
  }
}
