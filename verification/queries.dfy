/** The query descriptions of the reporting views
    (services/reports/queries.ts): a cache key per view and the fetch it
    stands for. Keys are `[prefix]` or `[prefix, params]`. */
module Queries {
  import opened Wrappers
  import opened Filters

  const FilterOptionsPrefix := "report-filter-options"
  const DataRecordsPrefix := "report-data-records"
  const StatsPrefix := "report-stats"
  const FacetPrefix := "report-facet"

  /** One element of a query-key array. */
  datatype KeyPart = Prefix(name: string) | Params(params: FilterMap)

  type QueryKey = seq<KeyPart>

  /** The request a query issues. */
  datatype Fetch = FetchFilterOptions | FetchTable(params: FilterMap) | FetchStats(params: FilterMap) | FetchFacets

  /** A query description: key, fetch and whether the previous data is kept
      as placeholder while a new key loads. */
  datatype QueryOptions = QueryOptions(queryKey: QueryKey, queryFn: Fetch, keepsPreviousData: bool)

  /** `getFetchFilterOptionsQuery()`. */
  function FilterOptionsQuery(): (q: QueryOptions)
    ensures q.queryKey == [Prefix(FilterOptionsPrefix)]
  {
    QueryOptions([Prefix(FilterOptionsPrefix)], FetchFilterOptions, false)
  }

  /** `getFetchDashboardTableQuery(params = {})`. */
  function TableQuery(params: Option<FilterMap>): (q: QueryOptions)
    ensures q.queryKey == [Prefix(DataRecordsPrefix), Params(params.GetOr(map[]))]
    ensures q.queryFn == FetchTable(params.GetOr(map[]))
    ensures q.keepsPreviousData
  {
    var p := params.GetOr(map[]);
    QueryOptions([Prefix(DataRecordsPrefix), Params(p)], FetchTable(p), true)
  }

  /** `getFetchDashboardStatsQuery(params = {})`. */
  function StatsQuery(params: Option<FilterMap>): (q: QueryOptions)
    ensures q.queryKey == [Prefix(StatsPrefix), Params(params.GetOr(map[]))]
    ensures q.queryFn == FetchStats(params.GetOr(map[]))
  {
    var p := params.GetOr(map[]);
    QueryOptions([Prefix(StatsPrefix), Params(p)], FetchStats(p), false)
  }

  /** `getFetchFacetsQuery()`. */
  function FacetsQuery(): (q: QueryOptions)
    ensures q.queryKey == [Prefix(FacetPrefix)]
  {
    QueryOptions([Prefix(FacetPrefix)], FetchFacets, false)
  }

  /** Every query description some builder returns. */
  predicate Built(q: QueryOptions) {
    match q.queryFn
    case FetchFilterOptions => q == FilterOptionsQuery()
    case FetchTable(p) => q == TableQuery(Some(p))
    case FetchStats(p) => q == StatsQuery(Some(p))
    case FetchFacets => q == FacetsQuery()
  }

  /** The four prefixes are pairwise distinct. */
  lemma PrefixesDistinct()
    ensures FilterOptionsPrefix != DataRecordsPrefix && FilterOptionsPrefix != StatsPrefix
    ensures FilterOptionsPrefix != FacetPrefix && DataRecordsPrefix != StatsPrefix
    ensures DataRecordsPrefix != FacetPrefix && StatsPrefix != FacetPrefix
  {
    assert FilterOptionsPrefix[7] != DataRecordsPrefix[7];
    assert FilterOptionsPrefix[7] != StatsPrefix[7];
    assert DataRecordsPrefix[7] != StatsPrefix[7];
  }

  /** Omitted parameters key like the empty object. */
  lemma DefaultParamsAreEmpty()
    ensures TableQuery(None) == TableQuery(Some(map[]))
    ensures StatsQuery(None) == StatsQuery(Some(map[]))
  {
  }

  /** Table keys are injective in the parameters: distinct filters are
      never served from one cache entry. */
  lemma TableKeyInjective(p1: Option<FilterMap>, p2: Option<FilterMap>)
    requires TableQuery(p1).queryKey == TableQuery(p2).queryKey
    ensures p1.GetOr(map[]) == p2.GetOr(map[])
  {
    assert TableQuery(p1).queryKey[1] == TableQuery(p2).queryKey[1];
  }

  /** A stats key never equals a table key, even for identical parameters. */
  lemma StatsKeyIsNotTableKey(p1: Option<FilterMap>, p2: Option<FilterMap>)
    ensures StatsQuery(p1).queryKey != TableQuery(p2).queryKey
  {
    PrefixesDistinct();
    assert StatsQuery(p1).queryKey[0] != TableQuery(p2).queryKey[0];
  }

  /** Across all builders, one key names one fetch: whatever two built
      queries share a key also issue the same request. */
  lemma KeyDeterminesFetch(q1: QueryOptions, q2: QueryOptions)
    requires Built(q1) && Built(q2)
    requires q1.queryKey == q2.queryKey
    ensures q1.queryFn == q2.queryFn
  {
    PrefixesDistinct();
    assert q1.queryKey[0] == q2.queryKey[0];
    if |q1.queryKey| == 2 {
      assert q1.queryKey[1] == q2.queryKey[1];
    }
  }
}
