/** The client-only dashboard (components/DataDashboard.tsx): seven text
    filters, the sequence of `filter` passes that narrows the loaded records,
    and the option lists offered for each filter. */
module Dashboard {
  import opened Wrappers
  import opened JsNumbers
  import opened Records
  import opened TextOrder

  /** The dashboard's filter state; "" means "no constraint". */
  datatype DashboardFilters = DashboardFilters(
    endYear: string, topic: string, sector: string, region: string,
    pestle: string, source: string, country: string)

  datatype FilterName = EndYearFilter | TopicFilter | SectorFilter | RegionFilter
                      | PestleFilter | SourceFilter | CountryFilter

  const NoFilters := DashboardFilters("", "", "", "", "", "", "")

  function GetFilter(f: DashboardFilters, name: FilterName): string {
    match name
    case EndYearFilter => f.endYear
    case TopicFilter => f.topic
    case SectorFilter => f.sector
    case RegionFilter => f.region
    case PestleFilter => f.pestle
    case SourceFilter => f.source
    case CountryFilter => f.country
  }

  /** `handleFilterChange(name, value)`: sets one filter, keeps the others. */
  function HandleFilterChange(f: DashboardFilters, name: FilterName, value: string): (r: DashboardFilters)
    ensures GetFilter(r, name) == value
    ensures forall other :: other != name ==> GetFilter(r, other) == GetFilter(f, other)
  {
    match name
    case EndYearFilter => f.(endYear := value)
    case TopicFilter => f.(topic := value)
    case SectorFilter => f.(sector := value)
    case RegionFilter => f.(region := value)
    case PestleFilter => f.(pestle := value)
    case SourceFilter => f.(source := value)
    case CountryFilter => f.(country := value)
  }

  /** What one non-empty filter asks of a record: `end_year?.toString()`
      equal to the text for the year, equality for the other fields (a
      `null` field never matches). */
  predicate Satisfies(r: DataRecord, name: FilterName, value: string) {
    match name
    case EndYearFilter => r.end_year.Some? && IntToString(r.end_year.value) == value
    case TopicFilter => r.topic == Some(value)
    case SectorFilter => r.sector == Some(value)
    case RegionFilter => r.region == Some(value)
    case PestleFilter => r.pestle == Some(value)
    case SourceFilter => r.source == Some(value)
    case CountryFilter => r.country == Some(value)
  }

  /** One filter with its current value. */
  datatype Criterion = Criterion(name: FilterName, value: string)

  predicate Holds(r: DataRecord, c: Criterion) {
    c.value == "" || Satisfies(r, c.name, c.value)
  }

  /** The filters in the order the effect applies them. */
  function Criteria(f: DashboardFilters): seq<Criterion> {
    [Criterion(EndYearFilter, f.endYear), Criterion(TopicFilter, f.topic),
     Criterion(SectorFilter, f.sector), Criterion(RegionFilter, f.region),
     Criterion(PestleFilter, f.pestle), Criterion(SourceFilter, f.source),
     Criterion(CountryFilter, f.country)]
  }

  /** `xs.filter(item => Satisfies(item, c))`. */
  function Keep(xs: seq<DataRecord>, c: Criterion): seq<DataRecord> {
    if |xs| == 0 then []
    else (if Satisfies(xs[0], c.name, c.value) then [xs[0]] else []) + Keep(xs[1..], c)
  }

  /** One `if (filters.x) result = result.filter(...)` step. */
  function Narrow(xs: seq<DataRecord>, c: Criterion): seq<DataRecord> {
    if c.value == "" then xs else Keep(xs, c)
  }

  function NarrowAll(xs: seq<DataRecord>, cs: seq<Criterion>): seq<DataRecord>
    decreases |cs|
  {
    if |cs| == 0 then xs else NarrowAll(Narrow(xs, cs[0]), cs[1..])
  }

  /** The filtering effect's result for loaded data. */
  function FilterRecords(data: seq<DataRecord>, f: DashboardFilters): seq<DataRecord> {
    NarrowAll(data, Criteria(f))
  }

  /** The effect: with no data loaded yet it returns early and the shown
      records stay as they were; otherwise it shows the matching records. */
  function FilterEffect(data: seq<DataRecord>, f: DashboardFilters, shown: seq<DataRecord>): (r: seq<DataRecord>)
    ensures |data| == 0 ==> r == shown
    ensures |data| > 0 ==> forall x :: x in r <==> x in data && Matches(x, f)
  {
    if |data| == 0 then shown
    else
      FilterRecordsExact(data, f);
      FilterRecords(data, f)
  }

  // Reference definition: one pass keeping the records every filter admits.

  predicate HoldsAll(r: DataRecord, cs: seq<Criterion>) {
    forall i :: 0 <= i < |cs| ==> Holds(r, cs[i])
  }

  /** A record matches the dashboard filters: every non-empty filter admits it. */
  predicate Matches(r: DataRecord, f: DashboardFilters) {
    forall name :: GetFilter(f, name) == "" || Satisfies(r, name, GetFilter(f, name))
  }

  function SelectAll(xs: seq<DataRecord>, cs: seq<Criterion>): seq<DataRecord> {
    if |xs| == 0 then []
    else (if HoldsAll(xs[0], cs) then [xs[0]] else []) + SelectAll(xs[1..], cs)
  }

  lemma {:induction false} NarrowIsSelect(xs: seq<DataRecord>, c: Criterion)
    ensures Narrow(xs, c) == SelectAll(xs, [c])
  {
    if |xs| > 0 {
      NarrowIsSelect(xs[1..], c);
      HoldsAllCons(xs[0], c, []);
      assert [c] + [] == [c];
      if c.value != "" {
        assert Keep(xs, c) == (if Satisfies(xs[0], c.name, c.value) then [xs[0]] else []) + Keep(xs[1..], c);
      } else {
        assert xs == [xs[0]] + xs[1..];
      }
    }
  }

  lemma {:induction false} SelectThenSelect(xs: seq<DataRecord>, c: Criterion, cs: seq<Criterion>)
    ensures SelectAll(SelectAll(xs, [c]), cs) == SelectAll(xs, [c] + cs)
  {
    if |xs| > 0 {
      SelectThenSelect(xs[1..], c, cs);
      var x := xs[0];
      HoldsAllCons(x, c, cs);
      HoldsAllCons(x, c, []);
      assert [c] + [] == [c];
      if HoldsAll(x, [c]) {
        assert SelectAll(xs, [c]) == [x] + SelectAll(xs[1..], [c]);
        var tail := SelectAll(xs[1..], [c]);
        assert ([x] + tail)[0] == x && ([x] + tail)[1..] == tail;
        assert SelectAll([x] + tail, cs)
          == (if HoldsAll(x, cs) then [x] else []) + SelectAll(tail, cs);
      } else {
        assert SelectAll(xs, [c]) == SelectAll(xs[1..], [c]);
      }
    }
  }

  lemma HoldsAllCons(r: DataRecord, c: Criterion, cs: seq<Criterion>)
    ensures HoldsAll(r, [c] + cs) <==> Holds(r, c) && HoldsAll(r, cs)
  {
    var all := [c] + cs;
    assert all[0] == c;
    assert forall i :: 0 <= i < |cs| ==> all[i + 1] == cs[i];
    if Holds(r, c) && HoldsAll(r, cs) {
      forall i | 0 <= i < |all| ensures Holds(r, all[i]) {
        if i > 0 {
          assert all[i] == cs[i - 1];
        }
      }
    }
  }

  lemma {:induction false} NarrowAllIsSelect(xs: seq<DataRecord>, cs: seq<Criterion>)
    ensures NarrowAll(xs, cs) == SelectAll(xs, cs)
    decreases |cs|
  {
    if |cs| == 0 {
      SelectNothingKeepsAll(xs);
    } else {
      NarrowAllIsSelect(Narrow(xs, cs[0]), cs[1..]);
      NarrowIsSelect(xs, cs[0]);
      SelectThenSelect(xs, cs[0], cs[1..]);
      assert [cs[0]] + cs[1..] == cs;
    }
  }

  lemma {:induction false} SelectNothingKeepsAll(xs: seq<DataRecord>)
    ensures SelectAll(xs, []) == xs
  {
    if |xs| > 0 {
      SelectNothingKeepsAll(xs[1..]);
      assert xs == [xs[0]] + xs[1..];
    }
  }

  lemma MatchesIsHoldsAll(r: DataRecord, f: DashboardFilters)
    ensures Matches(r, f) <==> HoldsAll(r, Criteria(f))
  {
    var cs := Criteria(f);
    if HoldsAll(r, cs) {
      forall name ensures GetFilter(f, name) == "" || Satisfies(r, name, GetFilter(f, name)) {
        match name
        case EndYearFilter => assert Holds(r, cs[0]);
        case TopicFilter => assert Holds(r, cs[1]);
        case SectorFilter => assert Holds(r, cs[2]);
        case RegionFilter => assert Holds(r, cs[3]);
        case PestleFilter => assert Holds(r, cs[4]);
        case SourceFilter => assert Holds(r, cs[5]);
        case CountryFilter => assert Holds(r, cs[6]);
      }
    }
    if Matches(r, f) {
      forall i | 0 <= i < |cs| ensures Holds(r, cs[i]) {
        assert GetFilter(f, cs[i].name) == cs[i].value;
      }
    }
  }

  lemma {:induction false} SelectCounts(xs: seq<DataRecord>, cs: seq<Criterion>, r: DataRecord)
    ensures multiset(SelectAll(xs, cs))[r] == if HoldsAll(r, cs) then multiset(xs)[r] else 0
  {
    if |xs| > 0 {
      SelectCounts(xs[1..], cs, r);
      assert xs == [xs[0]] + xs[1..];
    }
  }

  /** `a` is `b` with some elements left out, order preserved. */
  predicate IsSubsequence(a: seq<DataRecord>, b: seq<DataRecord>)
    decreases |b|
  {
    |a| == 0 || (|b| > 0 && ((a[0] == b[0] && IsSubsequence(a[1..], b[1..])) || IsSubsequence(a, b[1..])))
  }

  lemma {:induction false} SelectIsSubsequence(xs: seq<DataRecord>, cs: seq<Criterion>)
    ensures IsSubsequence(SelectAll(xs, cs), xs)
  {
    if |xs| > 0 {
      SelectIsSubsequence(xs[1..], cs);
      var rest := SelectAll(xs[1..], cs);
      var r := SelectAll(xs, cs);
      if HoldsAll(xs[0], cs) {
        assert r == [xs[0]] + rest;
        assert r[0] == xs[0] && r[1..] == rest;
      } else {
        assert r == rest;
      }
    }
  }

  /** The filtered records are exactly the loaded records that match, in
      their original order and with their multiplicities: the result is a
      subsequence of the data, every record in it matches every non-empty
      filter, and every matching record is kept. */
  lemma FilterRecordsExact(data: seq<DataRecord>, f: DashboardFilters)
    ensures IsSubsequence(FilterRecords(data, f), data)
    ensures forall r :: multiset(FilterRecords(data, f))[r] == if Matches(r, f) then multiset(data)[r] else 0
    ensures forall r :: r in FilterRecords(data, f) <==> r in data && Matches(r, f)
  {
    NarrowAllIsSelect(data, Criteria(f));
    SelectIsSubsequence(data, Criteria(f));
    forall r ensures multiset(FilterRecords(data, f))[r] == if Matches(r, f) then multiset(data)[r] else 0 {
      SelectCounts(data, Criteria(f), r);
      MatchesIsHoldsAll(r, f);
    }
  }

  /** With every filter empty the data is shown unchanged. */
  lemma NoFiltersKeepAll(data: seq<DataRecord>)
    ensures FilterRecords(data, NoFilters) == data
  {
    NarrowAllIsSelect(data, Criteria(NoFilters));
    forall r ensures HoldsAll(r, Criteria(NoFilters)) {
    }
    SelectAllTrue(data, Criteria(NoFilters));
  }

  lemma {:induction false} SelectAllTrue(xs: seq<DataRecord>, cs: seq<Criterion>)
    requires forall r :: HoldsAll(r, cs)
    ensures SelectAll(xs, cs) == xs
  {
    if |xs| > 0 {
      SelectAllTrue(xs[1..], cs);
      assert xs == [xs[0]] + xs[1..];
    }
  }

  // Option lists.

  /** The text a field contributes to its option list: non-empty strings as
      they are, non-zero numbers as `toString`; `null`, "" and 0 are skipped. */
  function OptionText(c: Cell): (t: Option<string>)
    ensures t.Some? ==> t.value != ""
  {
    match c
    case Str(s) => if s != "" then Some(s) else None
    case Num(n) => if n != 0 then Some(IntToString(n)) else None
    case Null => None
  }

  /** The distinct option texts of `field`, kept strictly ascending as the
      records are visited. */
  function CollectOptions(data: seq<DataRecord>, field: Field): (r: seq<string>)
    ensures StrictlySorted(r)
    ensures forall s :: s in r <==>
      exists i :: 0 <= i < |data| && OptionText(Get(data[i], field)) == Some(s)
  {
    if |data| == 0 then []
    else
      var prefix := data[..|data| - 1];
      var acc := CollectOptions(prefix, field);
      assert forall i :: 0 <= i < |prefix| ==> prefix[i] == data[i];
      match OptionText(Get(data[|data| - 1], field))
      case None => acc
      case Some(s) => InsertSorted(acc, s)
  }

  /** `getFilterOptions(field)`: the distinct non-empty, non-zero values of
      `field` as text, sorted ascending; nothing when no data is loaded. */
  function GetFilterOptions(data: seq<DataRecord>, field: Field): (r: seq<string>)
    ensures |data| == 0 ==> r == []
    ensures StrictlySorted(r)
    ensures forall i, j :: 0 <= i < j < |r| ==> r[i] != r[j]
    ensures "" !in r
    ensures forall s :: s in r <==>
      exists i :: 0 <= i < |data| && OptionText(Get(data[i], field)) == Some(s)
  {
    if |data| == 0 then []
    else
      var r := CollectOptions(data, field);
      forall i, j | 0 <= i < j < |r| ensures r[i] != r[j] {
        StrictlySortedDistinct(r, i, j);
      }
      r
  }
}
