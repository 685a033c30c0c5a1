/** The toolbar above the records table
    (components/records/components/data-table-toolbar.tsx): a free-text
    search box bound to one key, a faceted select per dimension, and a reset
    control shown while some non-search filter is active. */
module TableToolbar {
  import opened Wrappers
  import opened Filters

  /** `currentSearchValue`: the search key's value, or the empty text. */
  function CurrentSearchValue(f: FilterMap, searchKey: string): (v: Value)
    ensures IsSet(f, searchKey) ==> v == Lookup(f, searchKey).value
    ensures !IsSet(f, searchKey) ==> v == Text("")
  {
    Lookup(f, searchKey).GetOr(Text(""))
  }

  /** `isFiltered`: some key other than the search key has a value. */
  predicate IsFiltered(f: FilterMap, searchKey: string): (b: bool)
    ensures b ==> exists k :: k != searchKey && IsSet(f, k)
    ensures !b ==> forall k :: k != searchKey ==> !IsSet(f, k)
  {
    exists k :: k in f && k != searchKey && IsSet(f, k)
  }

  /** The update a keystroke in the search box hands to `setFilters`: the raw
      text, so clearing the box stores "" rather than removing the key. */
  function HandleSearchChange(searchKey: string, text: string): (partial: FilterMap)
    ensures partial.Keys == {searchKey}
    ensures Lookup(partial, searchKey) == Some(Text(text))
  {
    map[searchKey := Some(Text(text))]
  }

  /** The update a facet selection hands to `setFilters`: `null` or "" clear
      the key, any other value is stored as it is. */
  function HandleFilterChange(key: string, selected: Option<string>): (partial: FilterMap)
    ensures partial.Keys == {key}
    ensures (selected.None? || selected.value == "") <==> !IsSet(partial, key)
    ensures IsSet(partial, key) ==> Lookup(partial, key) == Some(Text(selected.value))
  {
    map[key := if selected.None? || selected.value == "" then None else Some(Text(selected.value))]
  }

  /** The reset control is rendered exactly when the filters are active. */
  predicate ShowsReset(f: FilterMap, searchKey: string): (b: bool)
    ensures b <==> exists k :: k != searchKey && IsSet(f, k)
  {
    IsFilteredMeansSomeKeySet(f, searchKey);
    IsFiltered(f, searchKey)
  }

  /** `isFiltered` holds iff some key other than the search key is set. */
  lemma IsFilteredMeansSomeKeySet(f: FilterMap, searchKey: string)
    ensures IsFiltered(f, searchKey) <==> exists k :: k != searchKey && IsSet(f, k)
  {
    if exists k :: k != searchKey && IsSet(f, k) {
      var k :| k != searchKey && IsSet(f, k);
      assert k in f && f[k].Some?;
    }
    if IsFiltered(f, searchKey) {
      var k :| k in f && k != searchKey && f[k].Some?;
      assert IsSet(f, k);
    }
  }

  /** Typing in the search box shows the text typed and never changes
      whether the reset control is shown. */
  lemma SearchKeepsFilteredState(f: FilterMap, searchKey: string, text: string)
    ensures CurrentSearchValue(SetFilters(f, HandleSearchChange(searchKey, text)), searchKey) == Text(text)
    ensures IsFiltered(SetFilters(f, HandleSearchChange(searchKey, text)), searchKey)
        <==> IsFiltered(f, searchKey)
  {
    var g := SetFilters(f, HandleSearchChange(searchKey, text));
    IsFilteredMeansSomeKeySet(f, searchKey);
    IsFilteredMeansSomeKeySet(g, searchKey);
    assert forall k :: k != searchKey ==> IsSet(g, k) == IsSet(f, k);
  }

  /** Selecting a facet value activates the filters, so the reset control
      is shown. */
  lemma FacetSelectionActivates(f: FilterMap, searchKey: string, key: string, value: string)
    requires key != searchKey && value != ""
    ensures ShowsReset(SetFilters(f, HandleFilterChange(key, Some(value))), searchKey)
  {
    var g := SetFilters(f, HandleFilterChange(key, Some(value)));
    assert IsSet(g, key);
    IsFilteredMeansSomeKeySet(g, searchKey);
  }

  /** The reset control leads to the empty search, which hides it again. */
  lemma ResetHidesReset(searchKey: string)
    ensures !ShowsReset(ResetFilters(), searchKey)
    ensures CurrentSearchValue(ResetFilters(), searchKey) == Text("")
  {
  }
}
