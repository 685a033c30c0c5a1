/** The URL-backed filter store of the client (hooks/use-filters.ts): the
    current search parameters, a shallow merge of partial updates onto them,
    and a reset to the empty search. */
module Filters {
  import opened Wrappers

  /** A search-parameter value: a number, the number `NaN` that `parseInt`
      produces for non-numeric text, or a string. */
  datatype Value = Num(n: int) | NaN | Text(s: string)

  /** Search parameters by name. A key mapped to `None` is a key present with
      the value `undefined`; both that and a missing key mean "no constraint". */
  type FilterMap = map<string, Option<Value>>

  const PageKey := "page"
  const PageSizeKey := "page_size"
  const OrderingKey := "ordering"
  const EndYearKey := "end_year"

  /** `filters[key]`: `undefined` for a missing key. */
  function Lookup(f: FilterMap, key: string): Option<Value> {
    if key in f then f[key] else None
  }

  /** Whether `key` currently constrains the query. */
  predicate IsSet(f: FilterMap, key: string) {
    Lookup(f, key).Some?
  }

  /** `setFilters(partial)`: the search `{...filters, ...partial}`. Keys given
      in `partial` take its value, even an explicit `undefined`; every other
      key keeps its value. */
  function SetFilters(f: FilterMap, partial: FilterMap): (r: FilterMap)
    ensures r.Keys == f.Keys + partial.Keys
    ensures forall k :: k in partial ==> Lookup(r, k) == partial[k]
    ensures forall k :: k !in partial ==> Lookup(r, k) == Lookup(f, k)
  {
    f + partial
  }

  /** `resetFilters()`: navigation to the empty search. */
  function ResetFilters(): (r: FilterMap)
    ensures forall k :: !IsSet(r, k)
    ensures |r| == 0
  {
    map[]
  }

  /** Merging nothing leaves the filters as they were. */
  lemma SetFiltersEmpty(f: FilterMap)
    ensures SetFilters(f, map[]) == f
  {
  }

  /** Applying the same partial update twice equals applying it once. */
  lemma SetFiltersIdempotent(f: FilterMap, partial: FilterMap)
    ensures SetFilters(SetFilters(f, partial), partial) == SetFilters(f, partial)
  {
  }

  /** Two successive updates equal one update with their merge, the later
      one winning on shared keys (last write wins). */
  lemma SetFiltersCompose(f: FilterMap, p: FilterMap, q: FilterMap)
    ensures SetFilters(SetFilters(f, p), q) == SetFilters(f, SetFilters(p, q))
  {
  }

  /** An explicit `undefined` clears the constraint. */
  lemma SetFiltersClears(f: FilterMap, key: string)
    ensures !IsSet(SetFilters(f, map[key := None]), key)
  {
  }

  /** The page is untouched by any update that does not name it. */
  lemma SetFiltersKeepsPage(f: FilterMap, partial: FilterMap)
    requires PageKey !in partial
    ensures Lookup(SetFilters(f, partial), PageKey) == Lookup(f, PageKey)
  {
  }
}
