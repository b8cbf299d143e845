/** The raw table: labelled columns and rows of cells, and the column renaming. */
module Frames {
  import opened Wrappers
  import opened Seqs
  import opened Records

  /** A data frame: column labels and, per row, one cell per column. */
  datatype Frame = Frame(columns: seq<string>, rows: seq<seq<Cell>>)

  predicate WellFormed(f: Frame) {
    forall i :: 0 <= i < |f.rows| ==> |f.rows[i]| == |f.columns|
  }

  const DateLabel: string := "observation_date"
  const HarmLabel: string := "harm_value"
  const PlantLabel: string := "plant_name"

  /** The fixed renaming from the dataset's Lithuanian field names to semantic names. */
  const Renames: map<string, string> := map[
    "_id" := "vda_id",
    "stebejimo_data" := DateLabel,
    "augalo_pavadinimas" := PlantLabel,
    "ligos_kenkejo_pavadinimas" := "disease_pest_name",
    "ligos_kenkejo_pavadinimas_lot" := "disease_pest_name_lot",
    "zalingumo_ivertis" := HarmLabel,
    "pazeidimo_lygis" := "violation_level",
    "savivaldybe" := "municipality"
  ]

  /**
   * The label a column carries after renaming. A label changes exactly when it
   * is one of the eight source names, and a renamed label is never itself a
   * source name.
   */
  function RenameLabel(c: string): (r: string)
    ensures r != c <==> c in Renames
    ensures r !in Renames
    ensures c !in Renames.Values ==> (r in Renames.Values <==> c in Renames)
  {
    if c in Renames then Renames[c] else c
  }

  function RenameColumns(cols: seq<string>): (r: seq<string>)
    ensures |r| == |cols|
    ensures forall i :: 0 <= i < |cols| ==> r[i] == RenameLabel(cols[i])
  {
    if cols == [] then [] else [RenameLabel(cols[0])] + RenameColumns(cols[1..])
  }

  /** `DataFrame.rename(columns=...)`: relabels columns, leaves every cell where it was. */
  function Rename(f: Frame): (g: Frame)
    ensures g.rows == f.rows
    ensures |g.columns| == |f.columns|
    ensures forall i :: 0 <= i < |f.columns| && f.columns[i] !in Renames ==> g.columns[i] == f.columns[i]
    ensures WellFormed(f) ==> WellFormed(g)
  {
    Frame(RenameColumns(f.columns), f.rows)
  }

  /** No two source names share a semantic name. */
  lemma RenamesInjective(a: string, b: string)
    requires a in Renames && b in Renames && Renames[a] == Renames[b]
    ensures a == b
  {
  }

  /** Two labels collide after renaming only if they were equal or one renames to the other. */
  lemma RenameCollision(a: string, b: string)
    requires RenameLabel(a) == RenameLabel(b)
    ensures a == b || (a in Renames && Renames[a] == b) || (b in Renames && Renames[b] == a)
  {
    if a in Renames && b in Renames {
      RenamesInjective(a, b);
    }
  }

  /**
   * Renaming keeps labels distinct exactly when no source name sits beside the
   * semantic name it renames to.
   */
  lemma {:induction false} RenameDistinct(cols: seq<string>)
    requires Distinct(cols)
    ensures Distinct(RenameColumns(cols)) <==>
      forall i, j :: 0 <= i < |cols| && 0 <= j < |cols| && cols[i] in Renames ==> cols[j] != Renames[cols[i]]
  {
    var r := RenameColumns(cols);
    if Distinct(r) {
      forall i, j | 0 <= i < |cols| && 0 <= j < |cols| && cols[i] in Renames
        ensures cols[j] != Renames[cols[i]]
      {
        assert r[i] == Renames[cols[i]];
      }
    } else {
      var i, j :| 0 <= i < j < |r| && r[i] == r[j];
      RenameCollision(cols[i], cols[j]);
    }
  }

  /** Renaming twice is renaming once. */
  lemma RenameIdempotent(f: Frame)
    ensures Rename(Rename(f)) == Rename(f)
  {
  }

  /** A semantic column is present after renaming iff its source name or the semantic name itself was present. */
  lemma RequiredLabelPresent(cols: seq<string>, source: string)
    requires source in Renames
    ensures Renames[source] in RenameColumns(cols) <==> source in cols || Renames[source] in cols
  {
    var r := RenameColumns(cols);
    if Renames[source] in r {
      var i :| 0 <= i < |r| && r[i] == Renames[source];
      RenameCollision(cols[i], source);
    }
    if source in cols {
      var i :| 0 <= i < |cols| && cols[i] == source;
      assert r[i] == Renames[source];
    }
  }

  /**
   * After renaming, a semantic label occurs as often as its source name and the
   * semantic name itself occurred together.
   */
  lemma {:induction false} RenameOccurrences(cols: seq<string>, source: string)
    requires source in Renames
    ensures Occurrences(RenameColumns(cols), Renames[source]) ==
      Occurrences(cols, source) + Occurrences(cols, Renames[source])
  {
    if cols != [] {
      RenameOccurrences(cols[1..], source);
      assert RenameColumns(cols)[1..] == RenameColumns(cols[1..]);
      if RenameLabel(cols[0]) == Renames[source] {
        RenameCollision(cols[0], source);
      }
    }
  }

  /** Position of the first column carrying label `c` (pandas reads that column). */
  function IndexOf(cols: seq<string>, c: string): (i: nat)
    requires c in cols
    ensures i < |cols| && cols[i] == c
    ensures forall j :: 0 <= j < i ==> cols[j] != c
  {
    if cols[0] == c then 0 else 1 + IndexOf(cols[1..], c)
  }

  /**
   * `get_raw`: the first `n` rows (10 by default), or for a negative `n` all
   * rows but the last `-n`; the columns are unchanged.
   */
  function Raw(f: Frame, n: int := 10): (g: Frame)
    ensures g.columns == f.columns
    ensures g.rows <= f.rows
    ensures n >= 0 ==> |g.rows| == Min(n, |f.rows|)
    ensures n < 0 ==> |f.rows| - |g.rows| == Min(-n, |f.rows|)
    ensures WellFormed(f) ==> WellFormed(g)
  {
    Frame(f.columns, Head(f.rows, n))
  }

  /** The three columns cleaning reads; without any of them pandas raises `KeyError`. */
  predicate HasRequired(cols: seq<string>) {
    DateLabel in cols && HarmLabel in cols && PlantLabel in cols
  }

  /**
   * The plant cell of a row. `dropna` over a label that renaming duplicated
   * looks at every column carrying it, so the plant counts as present only when
   * all of them are; its value is then the first.
   */
  function PlantCell(cols: seq<string>, cells: seq<Cell>): (r: Cell)
    requires |cells| == |cols|
    requires PlantLabel in cols
    ensures r.Some? <==> forall i :: 0 <= i < |cols| && cols[i] == PlantLabel ==> cells[i].Some?
    ensures r.Some? ==> r == cells[IndexOf(cols, PlantLabel)]
  {
    if forall i | 0 <= i < |cols| && cols[i] == PlantLabel :: cells[i].Some? then cells[IndexOf(cols, PlantLabel)]
    else None
  }

  /** Coerce one cell with a parser; a missing cell stays missing. */
  function ParseCell<T>(c: Cell, parse: string -> Option<T>): (r: Option<T>)
    ensures c.None? ==> r.None?
    ensures c.Some? ==> r == parse(c.value)
  {
    match c
    case None => None
    case Some(s) => parse(s)
  }

  /** A column other than the three the pipeline reads, carried through unchanged. */
  predicate PassesThrough(cols: seq<string>, c: string) {
    c in cols && c != DateLabel && c != HarmLabel && c != PlantLabel
  }

  /**
   * One frame row after the date and harm columns have been coerced in place:
   * the plant cell is not coerced (present when every plant column is), the
   * harm and date are present exactly when their cell is present and parses,
   * and every other column passes through.
   */
  function CoerceRow(cols: seq<string>, cells: seq<Cell>, p: Parsers): (r: Row)
    requires |cells| == |cols|
    requires HasRequired(cols)
    ensures r.plant.Some? <==> forall i :: 0 <= i < |cols| && cols[i] == PlantLabel ==> cells[i].Some?
    ensures r.plant.Some? ==> r.plant == cells[IndexOf(cols, PlantLabel)]
    ensures var c := cells[IndexOf(cols, HarmLabel)];
      (r.harm.Some? <==> c.Some? && p.number(c.value).Some?) && (r.harm.Some? ==> r.harm == p.number(c.value))
    ensures var c := cells[IndexOf(cols, DateLabel)];
      (r.date.Some? <==> c.Some? && p.date(c.value).Some?) && (r.date.Some? ==> r.date == p.date(c.value))
    ensures forall c :: c in r.extras <==> c in cols && c != DateLabel && c != HarmLabel && c != PlantLabel
    ensures forall c :: c in r.extras ==> r.extras[c] == cells[IndexOf(cols, c)]
  {
    Row(
      PlantCell(cols, cells),
      ParseCell(cells[IndexOf(cols, HarmLabel)], p.number),
      ParseCell(cells[IndexOf(cols, DateLabel)], p.date),
      // The value repeats the domain test, so that two rows whose pass-through
      // columns agree also agree as maps off the domain.
      map c | c in cols && PassesThrough(cols, c) :: if PassesThrough(cols, c) then cells[IndexOf(cols, c)] else None)
  }

  /** Every row of a frame, coerced. */
  function CoerceAll(f: Frame, p: Parsers): (rows: seq<Row>)
    requires WellFormed(f)
    requires HasRequired(f.columns)
    ensures |rows| == |f.rows|
    ensures forall i :: 0 <= i < |f.rows| ==> rows[i] == CoerceRow(f.columns, f.rows[i], p)
  {
    seq(|f.rows|, i requires 0 <= i < |f.rows| => CoerceRow(f.columns, f.rows[i], p))
  }
}
