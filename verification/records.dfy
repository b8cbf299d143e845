/** One observation row after column renaming and type coercion. */
module Records {
  import opened Wrappers

  /** A calendar date as produced by the date parser; only its year is ever read. */
  datatype Date = Date(year: int, month: int, day: int)

  /** A raw cell: the text of a JSON value, or missing for null / an absent key. */
  type Cell = Option<string>

  /**
   * A coerced row: the three columns the pipeline reads, each possibly missing
   * (None stands for pandas' NaN / NaT / None), and every other column passed
   * through unchanged under its (renamed) label.
   */
  datatype Row = Row(
    plant: Option<string>,
    harm: Option<real>,
    date: Option<Date>,
    extras: map<string, Cell>)

  /**
   * The two pandas parsers, `to_datetime(..., dayfirst=True, errors='coerce')`
   * and `to_numeric(..., errors='coerce')`, as parameters: each maps a cell's
   * text to a value or to missing and never raises.
   */
  datatype Parsers = Parsers(date: string -> Option<Date>, number: string -> Option<real>)

  /** Rows kept by the first drop rule: plant name and harm value both present. */
  predicate HasPlantAndHarm(r: Row) {
    r.plant.Some? && r.harm.Some?
  }

  /** Rows kept by the second drop rule: a parsed date is present. */
  predicate HasDate(r: Row) {
    r.date.Some?
  }

  /** A row of the cleaned table: every field the aggregations read is present. */
  predicate Complete(r: Row) {
    r.plant.Some? && r.harm.Some? && r.date.Some?
  }

  /** The harm value as a sum sees it: pandas' `sum` skips a missing value. */
  function Harm(r: Row): real {
    if r.harm.Some? then r.harm.value else 0.0
  }

  /** Grouping key of the top-plants view. */
  function PlantKey(r: Row): Option<string> {
    r.plant
  }

  /** Grouping key of the yearly trend: `observation_date.dt.year`, missing for NaT. */
  function YearKey(r: Row): Option<int> {
    if r.date.Some? then Some(r.date.value.year) else None
  }
}
