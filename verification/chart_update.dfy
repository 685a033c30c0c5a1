/** What a chart's effect does to the chart on screen. */
module ChartUpdate {
  /** `KeepPrevious`: the effect returns before clearing, so the chart drawn
      before stays. `Clear`: the old chart is removed and nothing is drawn.
      `Draw`: the old chart is replaced by `chart`. */
  datatype Redraw<+T> = KeepPrevious | Clear | Draw(chart: T)
}
