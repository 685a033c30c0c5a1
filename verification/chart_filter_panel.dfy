/** The facet filter panel of the charts view
    (components/charts/components/filter-panel.tsx): a select per dimension
    whose "all" entry means "no constraint", and whose end-year options are
    the facet years rendered as text and parsed back with `parseInt`. */
module ChartFilterPanel {
  import opened Wrappers
  import opened JsNumbers
  import opened Filters

  /** The select entry that stands for "any value". */
  const AllOption := "all"

  /** A facet entry as served by the API (`caption` is its `label`). */
  datatype FacetItem<T> = FacetItem(caption: T, value: T, count: nat)

  /** A select option: label, value and count as text. */
  datatype SelectOption = SelectOption(caption: string, value: string, count: nat)

  /** The value a selection stores: `parseInt` for `end_year`, the raw text
      otherwise. */
  function SelectedValue(key: string, choice: string): (v: Value)
    ensures key != EndYearKey ==> v == Text(choice)
    ensures key == EndYearKey ==> !v.Text?
    ensures key == EndYearKey && ParseInt(choice).Some? ==> v == Num(ParseInt(choice).value)
    ensures key == EndYearKey && ParseInt(choice).None? ==> v == NaN
  {
    if key == EndYearKey then
      match ParseInt(choice)
      case None => NaN
      case Some(n) => Num(n)
    else Text(choice)
  }

  /** `handleFilterChange(key)(choice)`: the whole filter object handed to
      `onFilterChange`, with `key` cleared for "all" and set otherwise. */
  function HandleFilterChange(f: FilterMap, key: string, choice: string): (r: FilterMap)
    ensures choice == AllOption ==> !IsSet(r, key)
    ensures choice != AllOption ==> Lookup(r, key) == Some(SelectedValue(key, choice))
    ensures Lookup(r, key) != Some(Text(AllOption))
    ensures forall k :: k != key ==> Lookup(r, k) == Lookup(f, k)
  {
    SetFilters(f, map[key := if choice == AllOption then None else Some(SelectedValue(key, choice))])
  }

  /** `value.toString()` of a stored search value. */
  function ValueToString(v: Value): string {
    match v
    case Num(n) => IntToString(n)
    case NaN => "NaN"
    case Text(s) => s
  }

  /** `getFilterValue`: the select shows "all" when there is no value. */
  function GetFilterValue(shown: Option<string>): (r: string)
    ensures shown.None? ==> r == AllOption
    ensures shown.Some? ==> r == shown.value
  {
    shown.GetOr(AllOption)
  }

  /** The select's current value for `key`: `getFilterValue(filters[key]?.toString())`. */
  function DisplayedValue(f: FilterMap, key: string): (shown: string)
    ensures !IsSet(f, key) ==> shown == AllOption
    ensures IsSet(f, key) && Lookup(f, key).value.Num? ==> shown == IntToString(Lookup(f, key).value.n)
    ensures IsSet(f, key) && Lookup(f, key).value.Text? ==> shown == Lookup(f, key).value.s
  {
    GetFilterValue(match Lookup(f, key) case None => None case Some(v) => Some(ValueToString(v)))
  }

  /** The end-year options: each facet year rendered with `toString`. */
  function EndYearOptions(facets: seq<FacetItem<int>>): (opts: seq<SelectOption>)
    ensures |opts| == |facets|
    ensures forall i :: 0 <= i < |opts| ==>
      opts[i].value == IntToString(facets[i].value) && ParseInt(opts[i].value) == Some(facets[i].value)
      && opts[i].count == facets[i].count
  {
    if |facets| == 0 then []
    else
      ParseIntOfIntToString(facets[0].value);
      [SelectOption(IntToString(facets[0].caption), IntToString(facets[0].value), facets[0].count)]
        + EndYearOptions(facets[1..])
  }

  /** The options of a text dimension: the facet values unchanged. */
  function TextOptions(facets: seq<FacetItem<string>>): (opts: seq<SelectOption>)
    ensures |opts| == |facets|
    ensures forall i :: 0 <= i < |opts| ==> opts[i].value == facets[i].value
  {
    if |facets| == 0 then []
    else [SelectOption(facets[0].caption, facets[0].value, facets[0].count)] + TextOptions(facets[1..])
  }

  /** Choosing an end-year option stores that facet's year as a number. */
  lemma EndYearOptionStoresYear(f: FilterMap, facets: seq<FacetItem<int>>, i: int)
    requires 0 <= i < |facets|
    ensures Lookup(HandleFilterChange(f, EndYearKey, EndYearOptions(facets)[i].value), EndYearKey)
      == Some(Num(facets[i].value))
  {
    var v := EndYearOptions(facets)[i].value;
    assert v == IntToString(facets[i].value);
    assert v[0] != 'a';
    assert SelectedValue(EndYearKey, v) == Num(facets[i].value);
  }

  /** After choosing an option, the select shows that option again: "all"
      for the any-entry, the text itself for a text dimension, and the
      rendered year for an end-year option. */
  lemma SelectionIsDisplayed(f: FilterMap, key: string, choice: string)
    requires choice == AllOption || key != EndYearKey || choice == IntToString(ParseInt(choice).GetOr(0))
    ensures DisplayedValue(HandleFilterChange(f, key, choice), key) == choice
  {
    if choice != AllOption && key == EndYearKey {
      var n := ParseInt(choice).GetOr(0);
      ParseIntOfIntToString(n);
    }
  }

  /** Every end-year option, once chosen, is displayed as itself. */
  lemma EndYearOptionIsDisplayed(f: FilterMap, y: int)
    ensures DisplayedValue(HandleFilterChange(f, EndYearKey, IntToString(y)), EndYearKey) == IntToString(y)
  {
    ParseIntOfIntToString(y);
    SelectionIsDisplayed(f, EndYearKey, IntToString(y));
  }
}
