/** The older filter panel (components/filter-panel.tsx): one inline handler
    per dimension instead of a shared one. Each handler spreads the current
    filters and sets its own key. */
module LegacyFilterPanel {
  import opened Wrappers
  import opened JsNumbers
  import opened Filters
  import ChartFilterPanel

  /** The text dimensions with a select of their own. */
  datatype TextDimension = Topic | Sector | Region | Pestle | Source | Country

  function KeyOf(d: TextDimension): (k: string)
    ensures k != EndYearKey
  {
    match d
    case Topic => "topic"
    case Sector => "sector"
    case Region => "region"
    case Pestle => "pestle"
    case Source => "source"
    case Country => "country"
  }

  /** The end-year handler: "all" clears, anything else is `parseInt`-ed. */
  function OnEndYearChange(f: FilterMap, choice: string): (r: FilterMap)
    ensures choice == ChartFilterPanel.AllOption ==> !IsSet(r, EndYearKey)
    ensures choice != ChartFilterPanel.AllOption && ParseInt(choice).Some? ==>
      Lookup(r, EndYearKey) == Some(Num(ParseInt(choice).value))
    ensures choice != ChartFilterPanel.AllOption && ParseInt(choice).None? ==>
      Lookup(r, EndYearKey) == Some(NaN)
    ensures forall k :: k != EndYearKey ==> Lookup(r, k) == Lookup(f, k)
  {
    var stored := if choice == "all" then None
                  else match ParseInt(choice) case None => Some(NaN) case Some(n) => Some(Num(n));
    f + map[EndYearKey := stored]
  }

  /** The handler of a text dimension: "all" clears, anything else is stored
      as it is. */
  function OnTextChange(f: FilterMap, d: TextDimension, choice: string): (r: FilterMap)
    ensures choice == ChartFilterPanel.AllOption ==> !IsSet(r, KeyOf(d))
    ensures choice != ChartFilterPanel.AllOption ==> Lookup(r, KeyOf(d)) == Some(Text(choice))
    ensures forall k :: k != KeyOf(d) ==> Lookup(r, k) == Lookup(f, k)
  {
    f + map[KeyOf(d) := if choice == "all" then None else Some(Text(choice))]
  }

  /** The end-year select shows `getFilterValue(filters.end_year?.toString())`. */
  function DisplayedEndYear(f: FilterMap): (shown: string)
    ensures !IsSet(f, EndYearKey) ==> shown == ChartFilterPanel.AllOption
    ensures NumberIs(f, EndYearKey) ==> shown == IntToString(Lookup(f, EndYearKey).value.n)
  {
    ChartFilterPanel.DisplayedValue(f, EndYearKey)
  }

  predicate NumberIs(f: FilterMap, key: string) {
    IsSet(f, key) && Lookup(f, key).value.Num?
  }

  /** Both panels react to every choice in the same way, so the older one
      inherits every property proved of the newer. */
  lemma AgreesWithChartPanel(f: FilterMap, d: TextDimension, choice: string)
    ensures OnEndYearChange(f, choice) == ChartFilterPanel.HandleFilterChange(f, EndYearKey, choice)
    ensures OnTextChange(f, d, choice) == ChartFilterPanel.HandleFilterChange(f, KeyOf(d), choice)
  {
  }

  /** A chosen year option is displayed as itself. */
  lemma EndYearChoiceIsDisplayed(f: FilterMap, y: int)
    ensures DisplayedEndYear(OnEndYearChange(f, IntToString(y))) == IntToString(y)
  {
    AgreesWithChartPanel(f, Topic, IntToString(y));
    ChartFilterPanel.EndYearOptionIsDisplayed(f, y);
  }
}
