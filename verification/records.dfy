/** The record shape served by the reporting API and consumed by the
    client-side dashboard and charts; every field but `id` is nullable. */
module Records {
  import opened Wrappers

  datatype DataRecord = DataRecord(
    id: int,
    end_year: Option<int>,
    intensity: Option<int>,
    sector: Option<string>,
    topic: Option<string>,
    insight: Option<string>,
    url: Option<string>,
    region: Option<string>,
    start_year: Option<int>,
    impact: Option<string>,
    added: Option<string>,
    published: Option<string>,
    country: Option<string>,
    relevance: Option<int>,
    pestle: Option<string>,
    source: Option<string>,
    title: Option<string>,
    likelihood: Option<int>)

  /** A field name of `DataRecord` (TypeScript `keyof DataRecord`). */
  datatype Field =
    | Id | EndYear | Intensity | Sector | Topic | Insight | Url | Region | StartYear
    | Impact | Added | Published | Country | Relevance | Pestle | Source | Title | Likelihood

  /** A field's value as JavaScript sees it: `null`, a number or a string. */
  datatype Cell = Null | Num(n: int) | Str(s: string)

  function NumCell(v: Option<int>): Cell {
    match v
    case None => Null
    case Some(n) => Num(n)
  }

  function StrCell(v: Option<string>): Cell {
    match v
    case None => Null
    case Some(s) => Str(s)
  }

  /** `record[field]`. */
  function Get(r: DataRecord, f: Field): Cell {
    match f
    case Id => Num(r.id)
    case EndYear => NumCell(r.end_year)
    case Intensity => NumCell(r.intensity)
    case Sector => StrCell(r.sector)
    case Topic => StrCell(r.topic)
    case Insight => StrCell(r.insight)
    case Url => StrCell(r.url)
    case Region => StrCell(r.region)
    case StartYear => NumCell(r.start_year)
    case Impact => StrCell(r.impact)
    case Added => StrCell(r.added)
    case Published => StrCell(r.published)
    case Country => StrCell(r.country)
    case Relevance => NumCell(r.relevance)
    case Pestle => StrCell(r.pestle)
    case Source => StrCell(r.source)
    case Title => StrCell(r.title)
    case Likelihood => NumCell(r.likelihood)
  }
}
