/** The data behind the topic donut chart (components/charts/TopicChart.tsx):
    records with a topic are counted per topic, "Unknown" is dropped, and the
    ten largest counts are kept in descending order with their total. */
module TopicChart {
  import opened Wrappers
  import opened Records
  import opened Grouping
  import opened ChartUpdate

  const Unknown := "Unknown"
  const TopCount := 10

  /** A record is counted when its topic is neither `null` nor "". */
  predicate HasTopic(r: DataRecord) {
    r.topic.Some? && r.topic.value != ""
  }

  /** The rollup key of a record: `d.topic || "Unknown"`. */
  function TopicKey(r: DataRecord): (k: string)
    ensures HasTopic(r) ==> k == r.topic.value
  {
    if HasTopic(r) then r.topic.value else Unknown
  }

  /** The number of records whose topic is `t`. */
  function CountTopic(data: seq<DataRecord>, t: string): nat {
    if |data| == 0 then 0
    else CountTopic(data[..|data| - 1], t) + (if data[|data| - 1].topic == Some(t) then 1 else 0)
  }

  /** The keys of the records that pass the validity filter, in order. */
  function ValidTopics(data: seq<DataRecord>): (ts: seq<string>)
    ensures |ts| <= |data|
    ensures forall t :: t != "" ==> multiset(ts)[t] == CountTopic(data, t)
    ensures multiset(ts)[""] == 0
  {
    if |data| == 0 then []
    else
      var r := data[|data| - 1];
      ValidTopics(data[..|data| - 1]) + (if HasTopic(r) then [TopicKey(r)] else [])
  }

  type TopicCount = Group<string>

  /** Counts never increase along the list. */
  ghost predicate NonIncreasing(gs: seq<TopicCount>) {
    forall i, j :: 0 <= i < j < |gs| ==> gs[i].count >= gs[j].count
  }

  /** Inserts `g` after every entry whose count is at least `g`'s, which
      keeps entries with equal counts in their original order. */
  function InsertByCount(s: seq<TopicCount>, g: TopicCount): (r: seq<TopicCount>)
    ensures |r| == |s| + 1
    ensures forall x :: x in r <==> x in s || x == g
    ensures SumCounts(r) == SumCounts(s) + g.count
  {
    if |s| == 0 then [g]
    else if s[0].count < g.count then [g] + s
    else
      var rest := InsertByCount(s[1..], g);
      assert forall x :: x in s ==> x == s[0] || x in s[1..];
      [s[0]] + rest
  }

  lemma NonIncreasingCons(x: TopicCount, s: seq<TopicCount>)
    requires NonIncreasing(s)
    requires forall y :: y in s ==> x.count >= y.count
    ensures NonIncreasing([x] + s)
  {
    var r := [x] + s;
    assert forall j :: 0 < j < |r| ==> r[j] == s[j - 1] && r[j] in s;
  }

  lemma NonIncreasingTail(s: seq<TopicCount>)
    requires |s| > 0 && NonIncreasing(s)
    ensures NonIncreasing(s[1..])
    ensures forall y :: y in s[1..] ==> s[0].count >= y.count
  {
    forall y | y in s[1..] ensures s[0].count >= y.count {
      var j :| 0 <= j < |s[1..]| && s[1..][j] == y;
      assert s[j + 1] == y;
    }
  }

  lemma {:induction false} InsertByCountSorted(s: seq<TopicCount>, g: TopicCount)
    requires NonIncreasing(s)
    ensures NonIncreasing(InsertByCount(s, g))
  {
    if |s| > 0 {
      NonIncreasingTail(s);
      if s[0].count >= g.count {
        InsertByCountSorted(s[1..], g);
        NonIncreasingCons(s[0], InsertByCount(s[1..], g));
      } else {
        assert forall y :: y in s ==> y == s[0] || y in s[1..];
        NonIncreasingCons(g, s);
      }
    }
  }

  lemma {:induction false} InsertByCountDistinct(s: seq<TopicCount>, g: TopicCount)
    requires DistinctKeys(s) && KeyAbsent(s, g.key)
    ensures DistinctKeys(InsertByCount(s, g))
  {
    if |s| > 0 {
      if s[0].count < g.count {
        DistinctCons(g, s);
      } else {
        assert forall x :: x in s[1..] ==> x in s;
        InsertByCountDistinct(s[1..], g);
        KeyAbsentTail(s);
        DistinctCons(s[0], InsertByCount(s[1..], g));
      }
    }
  }

  /** `sort((a, b) => b.count - a.count)`: a stable sort by descending count. */
  function SortByCount(gs: seq<TopicCount>): (r: seq<TopicCount>)
    requires DistinctKeys(gs)
    ensures NonIncreasing(r) && DistinctKeys(r)
    ensures |r| == |gs|
    ensures forall x :: x in r <==> x in gs
    ensures SumCounts(r) == SumCounts(gs)
  {
    if |gs| == 0 then []
    else
      var init := gs[..|gs| - 1];
      var last := gs[|gs| - 1];
      assert gs == init + [last];
      var sorted := SortByCount(init);
      assert forall x :: x in init ==> x.key != last.key by {
        forall x | x in init ensures x.key != last.key {
          var j :| 0 <= j < |init| && init[j] == x;
        }
      }
      SumCountsAppend(init, [last]);
      InsertByCountSorted(sorted, last);
      InsertByCountDistinct(sorted, last);
      InsertByCount(sorted, last)
  }

  /** `filter(d => d.topic !== "Unknown")`. */
  function DropUnknown(gs: seq<TopicCount>): (r: seq<TopicCount>)
    requires DistinctKeys(gs)
    ensures DistinctKeys(r)
    ensures forall x :: x in r <==> x in gs && x.key != Unknown
    ensures SumCounts(r) <= SumCounts(gs)
  {
    if |gs| == 0 then []
    else
      var rest := DropUnknown(gs[1..]);
      assert forall x :: x in gs ==> x == gs[0] || x in gs[1..];
      if gs[0].key == Unknown then rest
      else
        KeyAbsentTail(gs);
        DistinctCons(gs[0], rest);
        [gs[0]] + rest
  }

  datatype TopicChartData = TopicChartData(entries: seq<TopicCount>, total: nat)

  /** All counts by topic, "Unknown" dropped, sorted by descending count. */
  function RankedTopics(data: seq<DataRecord>): (r: seq<TopicCount>)
    ensures NonIncreasing(r) && DistinctKeys(r)
  {
    SortByCount(DropUnknown(Rollup(ValidTopics(data))))
  }

  /** What the chart's effect does: with no data it returns before clearing,
      so the previous chart stays; with data but no record with a topic it
      clears the chart; otherwise it draws the first ten ranked topics and
      the sum of their counts. */
  function ChartData(data: seq<DataRecord>): (d: Redraw<TopicChartData>)
    ensures d.KeepPrevious? <==> |data| == 0
    ensures d.Clear? <==> |data| > 0 && forall i :: 0 <= i < |data| ==> !HasTopic(data[i])
    ensures d.Draw? <==> exists i :: 0 <= i < |data| && HasTopic(data[i])
  {
    NoValidTopics(data);
    if |data| == 0 then KeepPrevious
    else
      var ts := ValidTopics(data);
      if |ts| == 0 then Clear
      else
        var ranked := RankedTopics(data);
        var entries := ranked[..if |ranked| < TopCount then |ranked| else TopCount];
        Draw(TopicChartData(entries, SumCounts(entries)))
  }

  lemma {:induction false} NoValidTopics(data: seq<DataRecord>)
    ensures |ValidTopics(data)| == 0 <==> forall i :: 0 <= i < |data| ==> !HasTopic(data[i])
  {
    if |data| > 0 {
      var init := data[..|data| - 1];
      NoValidTopics(init);
      assert forall i :: 0 <= i < |init| ==> init[i] == data[i];
    }
  }

  lemma {:induction false} CountTopicPositive(data: seq<DataRecord>, i: int)
    requires 0 <= i < |data| && data[i].topic.Some?
    ensures CountTopic(data, data[i].topic.value) > 0
  {
    if i < |data| - 1 {
      CountTopicPositive(data[..|data| - 1], i);
    }
  }

  lemma {:induction false} CountTopicAtMost(data: seq<DataRecord>, t: string)
    ensures CountTopic(data, t) <= |data|
  {
    if |data| > 0 {
      CountTopicAtMost(data[..|data| - 1], t);
    }
  }

  /** Each ranked entry counts exactly the records with its topic. */
  lemma RankedCounts(data: seq<DataRecord>, g: TopicCount)
    requires g in RankedTopics(data)
    ensures g.key != Unknown && g.key != ""
    ensures g.count == CountTopic(data, g.key) >= 1
  {
    var ts := ValidTopics(data);
    var groups := Rollup(ts);
    assert g in DropUnknown(groups);
    var i :| 0 <= i < |groups| && groups[i] == g;
    RollupGroupCount(ts, i);
  }

  /** The chart's entries: at most ten, distinct topics other than "Unknown"
      and "", counts non-increasing, each count the number of records with
      that topic, and the total the sum of the shown counts, at most the
      number of records. */
  lemma ChartDataProperties(data: seq<DataRecord>)
    requires ChartData(data).Draw?
    ensures var d := ChartData(data).chart;
      && |d.entries| <= TopCount
      && DistinctKeys(d.entries)
      && NonIncreasing(d.entries)
      && (forall i :: 0 <= i < |d.entries| ==>
            d.entries[i].key != Unknown && d.entries[i].key != ""
            && d.entries[i].count == CountTopic(data, d.entries[i].key) >= 1)
      && d.total == SumCounts(d.entries)
      && d.total <= |data|
  {
    ChartEntries(data);
    var ranked := RankedTopics(data);
    var entries := ChartData(data).chart.entries;
    var n := |entries|;
    PrefixKeepsRanking(ranked, n);
    forall i | 0 <= i < n
      ensures entries[i].key != Unknown && entries[i].key != ""
      ensures entries[i].count == CountTopic(data, entries[i].key) >= 1
    {
      assert entries[i] == ranked[i];
      RankedCounts(data, ranked[i]);
    }
    SumCountsPrefix(ranked, n);
    RankedTotal(data);
  }

  lemma PrefixKeepsRanking(ranked: seq<TopicCount>, n: nat)
    requires n <= |ranked| && NonIncreasing(ranked) && DistinctKeys(ranked)
    ensures NonIncreasing(ranked[..n]) && DistinctKeys(ranked[..n])
  {
    assert forall i :: 0 <= i < n ==> ranked[..n][i] == ranked[i];
  }

  /** The ranked counts add up to at most the number of records. */
  lemma RankedTotal(data: seq<DataRecord>)
    ensures SumCounts(RankedTopics(data)) <= |data|
  {
    var ts := ValidTopics(data);
    var groups := Rollup(ts);
    var dropped := DropUnknown(groups);
    assert SumCounts(SortByCount(dropped)) == SumCounts(dropped) <= SumCounts(groups) == |ts|;
  }

  lemma RankedContains(data: seq<DataRecord>, t: string) returns (j: int)
    requires t != Unknown && t != "" && CountTopic(data, t) > 0
    ensures 0 <= j < |RankedTopics(data)|
    ensures RankedTopics(data)[j].key == t && RankedTopics(data)[j].count == CountTopic(data, t)
  {
    var ts := ValidTopics(data);
    var groups := Rollup(ts);
    assert multiset(ts)[t] > 0;
    RollupKeys(ts, t);
    var k :| 0 <= k < |groups| && groups[k].key == t;
    RollupGroupCount(ts, k);
    var g := groups[k];
    var dropped := DropUnknown(groups);
    assert g in dropped;
    var ranked := SortByCount(dropped);
    assert ranked == RankedTopics(data);
    assert g in ranked;
    j :| 0 <= j < |ranked| && ranked[j] == g;
  }

  /** The chart's entries are the leading ranked topics. */
  lemma ChartEntries(data: seq<DataRecord>)
    requires ChartData(data).Draw?
    ensures var n := |ChartData(data).chart.entries|;
      && n == (if |RankedTopics(data)| < TopCount then |RankedTopics(data)| else TopCount)
      && ChartData(data).chart.entries == RankedTopics(data)[..n]
  {
  }

  /** Within the shown prefix, entry `j` is shown at position `j`. */
  lemma ShownPrefix(ranked: seq<TopicCount>, n: nat, j: nat)
    requires n <= |ranked| && j < |ranked|
    ensures j < n ==> ranked[..n][j] == ranked[j]
  {
  }

  /** Every entry of the prefix before `j` counts at least as much. */
  lemma RankedBefore(ranked: seq<TopicCount>, n: nat, j: nat)
    requires NonIncreasing(ranked) && n <= j < |ranked|
    ensures forall i :: 0 <= i < n ==> ranked[..n][i].count >= ranked[j].count
  {
    assert forall i :: 0 <= i < n ==> ranked[..n][i] == ranked[i];
  }

  /** The chart really shows the top ten: a topic that is counted but not
      shown only happens when ten topics are shown, and each of those is at
      least as frequent. */
  lemma ChartShowsTopTen(data: seq<DataRecord>, t: string)
    requires ChartData(data).Draw?
    requires t != Unknown && t != "" && CountTopic(data, t) > 0
    requires forall i :: 0 <= i < |ChartData(data).chart.entries| ==> ChartData(data).chart.entries[i].key != t
    ensures |ChartData(data).chart.entries| == TopCount
    ensures forall i :: 0 <= i < TopCount ==> ChartData(data).chart.entries[i].count >= CountTopic(data, t)
  {
    var j := RankedContains(data, t);
    ChartEntries(data);
    var ranked := RankedTopics(data);
    var entries := ChartData(data).chart.entries;
    var n := |entries|;
    ShownPrefix(ranked, n, j);
    assert j >= n;
    RankedBefore(ranked, n, j);
  }

  /** With fewer than ten ranked topics every counted topic is shown. */
  lemma FewTopicsAllShown(data: seq<DataRecord>, t: string)
    requires ChartData(data).Draw?
    requires |ChartData(data).chart.entries| < TopCount
    requires t != Unknown && t != "" && CountTopic(data, t) > 0
    ensures exists i :: 0 <= i < |ChartData(data).chart.entries| && ChartData(data).chart.entries[i].key == t
  {
    if !exists i :: 0 <= i < |ChartData(data).chart.entries| && ChartData(data).chart.entries[i].key == t {
      ChartShowsTopTen(data, t);
    }
  }

  /** The total never exceeds the number of records. */
  lemma TotalAtMostRecords(data: seq<DataRecord>)
    requires ChartData(data).Draw?
    ensures ChartData(data).chart.total <= |data|
  {
    ChartDataProperties(data);
  }
}
