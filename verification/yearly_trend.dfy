/** The counts behind the yearly trend chart
    (components/charts/yearly-trend-chart.tsx): each record's year is its
    start year, else its end year; records are grouped by positive year and
    the groups listed in ascending year order. */
module YearlyTrend {
  import opened Wrappers
  import opened Records
  import opened Grouping
  import opened ChartUpdate

  /** The validity filter: a start or an end year is present. */
  predicate HasSomeYear(r: DataRecord) {
    r.start_year.Some? || r.end_year.Some?
  }

  /** `d.start_year || d.end_year || 0`: `null` and 0 both fall through. */
  function DerivedYear(r: DataRecord): (y: int)
    ensures r.start_year.Some? && r.start_year.value != 0 ==> y == r.start_year.value
    ensures (r.start_year.None? || r.start_year.value == 0) && r.end_year.Some? && r.end_year.value != 0
            ==> y == r.end_year.value
    ensures (r.start_year.None? || r.start_year.value == 0) && (r.end_year.None? || r.end_year.value == 0)
            ==> y == 0
  {
    if r.start_year.Some? && r.start_year.value != 0 then r.start_year.value
    else if r.end_year.Some? && r.end_year.value != 0 then r.end_year.value
    else 0
  }

  /** A record contributes to the chart when its derived year is positive;
      such a record always passes the validity filter too. */
  predicate Contributes(r: DataRecord) {
    HasSomeYear(r) && DerivedYear(r) > 0
  }

  lemma PositiveYearIsValid(r: DataRecord)
    requires DerivedYear(r) > 0
    ensures Contributes(r)
  {
  }

  /** The number of records whose derived year is `y`. */
  function CountYear(data: seq<DataRecord>, y: int): nat {
    if |data| == 0 then 0
    else CountYear(data[..|data| - 1], y) + (if DerivedYear(data[|data| - 1]) == y then 1 else 0)
  }

  /** The number of records that contribute. */
  function CountContributing(data: seq<DataRecord>): nat {
    if |data| == 0 then 0
    else CountContributing(data[..|data| - 1]) + (if Contributes(data[|data| - 1]) then 1 else 0)
  }

  /** The years of the contributing records, in order: the validity filter,
      the year derivation, then `filter(d => d.year > 0)`. */
  function YearKeys(data: seq<DataRecord>): (ys: seq<int>)
    ensures |ys| == CountContributing(data)
    ensures forall y :: y > 0 ==> multiset(ys)[y] == CountYear(data, y)
    ensures forall y :: y <= 0 ==> multiset(ys)[y] == 0
  {
    if |data| == 0 then []
    else
      var r := data[|data| - 1];
      YearKeys(data[..|data| - 1]) + (if Contributes(r) then [DerivedYear(r)] else [])
  }

  type YearCount = Group<int>

  /** Years strictly increase along the list. */
  ghost predicate StrictlyAscending(gs: seq<YearCount>) {
    forall i, j :: 0 <= i < j < |gs| ==> gs[i].key < gs[j].key
  }

  /** Inserts `g` before the first entry with a larger year. */
  function InsertByYear(s: seq<YearCount>, g: YearCount): (r: seq<YearCount>)
    ensures |r| == |s| + 1
    ensures forall x :: x in r <==> x in s || x == g
    ensures SumCounts(r) == SumCounts(s) + g.count
  {
    if |s| == 0 then [g]
    else if g.key < s[0].key then [g] + s
    else
      var rest := InsertByYear(s[1..], g);
      assert forall x :: x in s ==> x == s[0] || x in s[1..];
      [s[0]] + rest
  }

  lemma AscendingCons(x: YearCount, s: seq<YearCount>)
    requires StrictlyAscending(s)
    requires forall y :: y in s ==> x.key < y.key
    ensures StrictlyAscending([x] + s)
  {
    var r := [x] + s;
    assert forall j :: 0 < j < |r| ==> r[j] == s[j - 1] && r[j] in s;
  }

  lemma AscendingTail(s: seq<YearCount>)
    requires |s| > 0 && StrictlyAscending(s)
    ensures StrictlyAscending(s[1..])
    ensures forall y :: y in s[1..] ==> s[0].key < y.key
  {
    forall y | y in s[1..] ensures s[0].key < y.key {
      var j :| 0 <= j < |s[1..]| && s[1..][j] == y;
      assert s[j + 1] == y;
    }
  }

  lemma {:induction false} InsertByYearSorted(s: seq<YearCount>, g: YearCount)
    requires StrictlyAscending(s) && KeyAbsent(s, g.key)
    ensures StrictlyAscending(InsertByYear(s, g))
  {
    if |s| > 0 {
      AscendingTail(s);
      if g.key < s[0].key {
        AscendingCons(g, s);
      } else {
        assert g.key != s[0].key by { assert s[0] in s; }
        assert forall x :: x in s[1..] ==> x in s;
        InsertByYearSorted(s[1..], g);
        AscendingCons(s[0], InsertByYear(s[1..], g));
      }
    }
  }

  /** `sort((a, b) => a.year - b.year)` on groups with distinct years. */
  function SortByYear(gs: seq<YearCount>): (r: seq<YearCount>)
    requires DistinctKeys(gs)
    ensures StrictlyAscending(r)
    ensures |r| == |gs|
    ensures forall x :: x in r <==> x in gs
    ensures SumCounts(r) == SumCounts(gs)
  {
    if |gs| == 0 then []
    else
      var init := gs[..|gs| - 1];
      var last := gs[|gs| - 1];
      assert gs == init + [last];
      var sorted := SortByYear(init);
      assert KeyAbsent(sorted, last.key) by {
        forall x | x in sorted ensures x.key != last.key {
          var j :| 0 <= j < |init| && init[j] == x;
        }
      }
      SumCountsAppend(init, [last]);
      InsertByYearSorted(sorted, last);
      InsertByYear(sorted, last)
  }

  /** What the chart's effect does: with no data it returns before
      clearing, so the previous chart stays; with data but no record with a
      year it clears the chart; otherwise it draws one group per positive
      year, ascending. */
  function YearlyCounts(data: seq<DataRecord>): (d: Redraw<seq<YearCount>>)
    ensures d.KeepPrevious? <==> |data| == 0
    ensures d.Clear? <==> |data| > 0 && forall i :: 0 <= i < |data| ==> !HasSomeYear(data[i])
    ensures d.Draw? <==> exists i :: 0 <= i < |data| && HasSomeYear(data[i])
  {
    if |data| == 0 then KeepPrevious
    else if forall i :: 0 <= i < |data| ==> !HasSomeYear(data[i]) then Clear
    else Draw(SortByYear(Rollup(YearKeys(data))))
  }

  /** The groups are strictly ascending by year, each year is positive and
      counts exactly the records with that derived year, and the counts add
      up to the number of contributing records. */
  lemma YearlyCountsProperties(data: seq<DataRecord>)
    requires YearlyCounts(data).Draw?
    ensures var gs := YearlyCounts(data).chart;
      && StrictlyAscending(gs)
      && (forall i :: 0 <= i < |gs| ==> gs[i].key > 0 && gs[i].count == CountYear(data, gs[i].key) >= 1)
      && SumCounts(gs) == CountContributing(data)
  {
    var ys := YearKeys(data);
    var groups := Rollup(ys);
    var gs := YearlyCounts(data).chart;
    forall i | 0 <= i < |gs| ensures gs[i].key > 0 && gs[i].count == CountYear(data, gs[i].key) >= 1 {
      assert gs[i] in groups;
      var k :| 0 <= k < |groups| && groups[k] == gs[i];
      RollupGroupCount(ys, k);
    }
  }

  /** Every year some record contributes has exactly one group. */
  lemma EveryYearHasOneGroup(data: seq<DataRecord>, y: int)
    requires YearlyCounts(data).Draw?
    requires y > 0 && CountYear(data, y) > 0
    ensures exists i :: 0 <= i < |YearlyCounts(data).chart| && YearlyCounts(data).chart[i].key == y
    ensures forall i, j :: 0 <= i < j < |YearlyCounts(data).chart| ==>
      YearlyCounts(data).chart[i].key != YearlyCounts(data).chart[j].key
  {
    var ys := YearKeys(data);
    var groups := Rollup(ys);
    assert multiset(ys)[y] > 0;
    RollupKeys(ys, y);
    var k :| 0 <= k < |groups| && groups[k].key == y;
    assert groups[k] in YearlyCounts(data).chart;
  }
}
