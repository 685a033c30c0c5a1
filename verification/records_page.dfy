/** The records table page (components/records/page.tsx): the single-column
    sort state encoded as one `ordering` string, and the translation between
    the 1-indexed `page` search parameter and the grid's 0-indexed page. */
module RecordsPage {
  import opened Wrappers
  import opened Filters

  /** One entry of the grid's sorting state. */
  datatype SortEntry = SortEntry(id: string, desc: bool)

  /** The grid's pagination state. */
  datatype PaginationState = PaginationState(pageIndex: int, pageSize: int)

  /** A state change handed over by the grid: either a new value or an
      updater applied to the current one. */
  datatype Updater<!T> = Replace(next: T) | Update(apply: T -> T)

  function Resolve<T>(u: Updater<T>, current: T): T {
    match u
    case Replace(next) => next
    case Update(apply) => apply(current)
  }

  /** Page shown when the search has no `page`. */
  const DefaultPage := 1
  /** Rows per page when the search has no `page_size`. */
  const DefaultPageSize := 10

  /** `stateToSortBy`: no ordering for a missing or empty sorting state;
      otherwise the first entry's id, prefixed with `-` when descending. */
  function StateToSortBy(sorting: Option<seq<SortEntry>>): (r: Option<string>)
    ensures r.None? <==> sorting.None? || |sorting.value| == 0
    ensures r.Some? && sorting.value[0].desc ==> r.value == "-" + sorting.value[0].id
    ensures r.Some? && !sorting.value[0].desc ==> r.value == sorting.value[0].id
  {
    if sorting.None? || |sorting.value| == 0 then None
    else
      var sort := sorting.value[0];
      Some((if sort.desc then "-" else "") + sort.id)
  }

  /** `sortByToState`: no entries for a missing or empty string; otherwise
      one entry, descending exactly when the string starts with `-`, whose id
      is the string without that sign. */
  function SortByToState(sortBy: Option<string>): (r: seq<SortEntry>)
    ensures |r| == 0 <==> sortBy.None? || sortBy.value == ""
    ensures |r| == 1 ==> (r[0].desc <==> sortBy.value[0] == '-')
    ensures sortBy.Some? && sortBy.value != "" ==>
      |r| == 1 && r[0].id == (if sortBy.value[0] == '-' then sortBy.value[1..] else sortBy.value)
  {
    if sortBy.None? || sortBy.value == "" then []
    else
      var s := sortBy.value;
      var desc := s[0] == '-';
      [SortEntry(if desc then s[1..] else s, desc)]
  }

  /** Entries after the first never reach the encoded string. */
  lemma SortByUsesFirstEntryOnly(first: SortEntry, rest: seq<SortEntry>)
    ensures StateToSortBy(Some([first] + rest)) == StateToSortBy(Some([first]))
  {
  }

  /** A single entry survives encoding and decoding exactly when it is
      descending, or ascending with a non-empty id not starting with `-`. */
  lemma SortStateRoundTrip(e: SortEntry)
    ensures SortByToState(StateToSortBy(Some([e]))) == [e]
        <==> e.desc || (|e.id| > 0 && e.id[0] != '-')
  {
    var s := (if e.desc then "-" else "") + e.id;
    if e.desc {
      assert s[0] == '-' && s[1..] == e.id;
    } else {
      assert s == e.id;
    }
  }

  /** Every non-empty ordering string is reproduced by decoding then encoding. */
  lemma SortStringRoundTrip(s: string)
    requires s != ""
    ensures StateToSortBy(Some(SortByToState(Some(s)))) == Some(s)
  {
    if s[0] == '-' {
      assert "-" + s[1..] == s;
    }
  }

  /** The `ordering` search parameter, when it is a string. */
  function OrderingParam(f: FilterMap): Option<string> {
    match Lookup(f, OrderingKey)
    case Some(Text(s)) => Some(s)
    case _ => None
  }

  /** A numeric search parameter, when it is a number. */
  function NumberParam(f: FilterMap, key: string): Option<int> {
    match Lookup(f, key)
    case Some(Num(n)) => Some(n)
    case _ => None
  }

  /** The grid's sorting state, read from the search: at most one entry,
      none exactly when there is no ordering text, and encoding it gives the
      ordering text back. */
  function SortingStateOf(f: FilterMap): (s: seq<SortEntry>)
    ensures |s| <= 1
    ensures |s| == 0 <==> OrderingParam(f).None? || OrderingParam(f).value == ""
    ensures |s| == 1 ==> StateToSortBy(Some(s)) == OrderingParam(f)
  {
    if OrderingParam(f).Some? && OrderingParam(f).value != "" then
      SortStringRoundTrip(OrderingParam(f).value);
      SortByToState(OrderingParam(f))
    else SortByToState(OrderingParam(f))
  }

  /** The grid's pagination state, read from the search:
      `pageIndex = (page ?? 1) - 1`, `pageSize = page_size ?? 10`. */
  function PaginationStateOf(f: FilterMap): (p: PaginationState)
    ensures !IsSet(f, PageKey) ==> p.pageIndex == 0
    ensures !IsSet(f, PageSizeKey) ==> p.pageSize == 10
    ensures NumberParam(f, PageKey).Some? ==> p.pageIndex + 1 == NumberParam(f, PageKey).value
    ensures NumberParam(f, PageSizeKey).Some? ==> p.pageSize == NumberParam(f, PageSizeKey).value
  {
    PaginationState(NumberParam(f, PageKey).GetOr(DefaultPage) - 1,
                    NumberParam(f, PageSizeKey).GetOr(DefaultPageSize))
  }

  /** The update `onPaginationChange` hands to `setFilters`: the new 0-indexed
      page written back 1-indexed, and the page size. */
  function OnPaginationChange(f: FilterMap, u: Updater<PaginationState>): (partial: FilterMap)
    ensures partial.Keys == {PageKey, PageSizeKey}
    ensures PaginationStateOf(partial) == Resolve(u, PaginationStateOf(f))
    ensures partial[PageKey] == Some(Num(Resolve(u, PaginationStateOf(f)).pageIndex + 1))
    ensures partial[PageSizeKey] == Some(Num(Resolve(u, PaginationStateOf(f)).pageSize))
  {
    var next := Resolve(u, PaginationStateOf(f));
    map[PageKey := Some(Num(next.pageIndex + 1)), PageSizeKey := Some(Num(next.pageSize))]
  }

  /** The update `onSortingChange` hands to `setFilters`: only `ordering`. */
  function OnSortingChange(f: FilterMap, u: Updater<seq<SortEntry>>): (partial: FilterMap)
    ensures partial.Keys == {OrderingKey}
    ensures OrderingParam(partial) == StateToSortBy(Some(Resolve(u, SortingStateOf(f))))
    ensures |Resolve(u, SortingStateOf(f))| == 0 ==> !IsSet(partial, OrderingKey)
  {
    var next := StateToSortBy(Some(Resolve(u, SortingStateOf(f))));
    map[OrderingKey := match next case None => None case Some(s) => Some(Text(s))]
  }

  /** After a pagination change the page reads back the grid's new state, and
      no key other than `page` and `page_size` changes. */
  lemma PaginationChangeRoundTrip(f: FilterMap, u: Updater<PaginationState>)
    ensures PaginationStateOf(SetFilters(f, OnPaginationChange(f, u))) == Resolve(u, PaginationStateOf(f))
    ensures forall k :: k != PageKey && k != PageSizeKey ==>
      Lookup(SetFilters(f, OnPaginationChange(f, u)), k) == Lookup(f, k)
  {
    var next := Resolve(u, PaginationStateOf(f));
    var g := SetFilters(f, OnPaginationChange(f, u));
    assert NumberParam(g, PageKey) == Some(next.pageIndex + 1);
    assert NumberParam(g, PageSizeKey) == Some(next.pageSize);
  }

  /** After a sorting change the sort reads back the grid's new single
      entry, and no key other than `ordering` changes. */
  lemma SortingChangeRoundTrip(f: FilterMap, u: Updater<seq<SortEntry>>)
    requires |Resolve(u, SortingStateOf(f))| == 1
    requires var e := Resolve(u, SortingStateOf(f))[0]; e.desc || (|e.id| > 0 && e.id[0] != '-')
    ensures SortingStateOf(SetFilters(f, OnSortingChange(f, u))) == Resolve(u, SortingStateOf(f))
    ensures forall k :: k != OrderingKey ==>
      Lookup(SetFilters(f, OnSortingChange(f, u)), k) == Lookup(f, k)
  {
    var next := Resolve(u, SortingStateOf(f));
    assert next == [next[0]];
    SortStateRoundTrip(next[0]);
    var g := SetFilters(f, OnSortingChange(f, u));
    assert OrderingParam(g) == StateToSortBy(Some(next));
  }

  /** Clearing the sort removes the ordering constraint. */
  lemma SortingClearedRemovesOrdering(f: FilterMap, u: Updater<seq<SortEntry>>)
    requires |Resolve(u, SortingStateOf(f))| == 0
    ensures !IsSet(SetFilters(f, OnSortingChange(f, u)), OrderingKey)
    ensures SortingStateOf(SetFilters(f, OnSortingChange(f, u))) == []
  {
  }
}
