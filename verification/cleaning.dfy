/** `clean_data`: rename, coerce, and drop rows missing a required value. */
module Cleaning {
  import opened Wrappers
  import opened Seqs
  import opened Records
  import opened Frames

  /**
   * What `clean_data` raises: `KeyError` for a column absent after renaming;
   * `ValueError` from `to_datetime` and `TypeError` from `to_numeric` when
   * renaming left two columns under the date or the harm label, so that the
   * selection is a two-column frame rather than a column.
   */
  datatype CleanError = KeyError(column: string) | ValueError(column: string) | TypeError(column: string)

  /**
   * The two drop steps on coerced rows: first rows missing the plant name or
   * the harm value, then rows without a parsed date. The survivors are exactly
   * the complete rows, in their original order.
   */
  function CleanRows(rows: seq<Row>): (r: seq<Row>)
    ensures forall x :: x in r ==> x in rows && Complete(x)
    ensures forall x :: x in rows && Complete(x) ==> x in r
    ensures IsSubsequence(r, rows)
  {
    var kept := Filter(HasPlantAndHarm, rows);
    FilterFusion(HasPlantAndHarm, HasDate, Complete, rows);
    FilterIsSubsequence(Complete, rows);
    Filter(HasDate, kept)
  }

  /** The two-step filter is the single filter "keep complete rows". */
  lemma CleanRowsIsOneFilter(rows: seq<Row>)
    ensures CleanRows(rows) == Filter(Complete, rows)
  {
    FilterFusion(HasPlantAndHarm, HasDate, Complete, rows);
  }

  /** Cleaning decides each row on its own, so it distributes over concatenation. */
  lemma CleanRowsAppend(a: seq<Row>, b: seq<Row>)
    ensures CleanRows(a + b) == CleanRows(a) + CleanRows(b)
  {
    CleanRowsIsOneFilter(a + b);
    CleanRowsIsOneFilter(a);
    CleanRowsIsOneFilter(b);
    FilterAppend(Complete, a, b);
  }

  /** A single row is dropped exactly when its plant, harm or date is missing. */
  lemma CleanRowsDropRule(x: Row)
    ensures CleanRows([x]) == [] <==> x.plant.None? || x.harm.None? || x.date.None?
  {
  }

  /** Cleaning clean rows changes nothing. */
  lemma CleanRowsIdempotent(rows: seq<Row>)
    ensures CleanRows(CleanRows(rows)) == CleanRows(rows)
  {
    var once := CleanRows(rows);
    CleanRowsIsOneFilter(once);
    FilterAllKept(Complete, once);
  }

  /** The cleaned table has one row per complete input row. */
  lemma CleanRowsLength(rows: seq<Row>)
    ensures |CleanRows(rows)| == Count(Complete, rows)
  {
    CleanRowsIsOneFilter(rows);
    FilterLength(Complete, rows);
  }

  /**
   * `clean_data`: rename the columns, coerce the date and harm columns, drop
   * incomplete rows. Errors are raised in source order: the date column must
   * exist and be single, then the harm column, then the plant column must exist.
   */
  function Clean(f: Frame, p: Parsers): (r: Result<seq<Row>, CleanError>)
    requires WellFormed(f)
    ensures r.Success? <==> (HasRequired(Rename(f).columns) &&
      Occurrences(Rename(f).columns, DateLabel) == 1 && Occurrences(Rename(f).columns, HarmLabel) == 1)
    ensures DateLabel !in Rename(f).columns ==> r == Failure(KeyError(DateLabel))
    ensures Occurrences(Rename(f).columns, DateLabel) > 1 ==> r == Failure(ValueError(DateLabel))
    ensures Occurrences(Rename(f).columns, DateLabel) == 1 && HarmLabel !in Rename(f).columns ==>
      r == Failure(KeyError(HarmLabel))
    ensures Occurrences(Rename(f).columns, DateLabel) == 1 && Occurrences(Rename(f).columns, HarmLabel) > 1 ==>
      r == Failure(TypeError(HarmLabel))
    ensures (Occurrences(Rename(f).columns, DateLabel) == 1 && Occurrences(Rename(f).columns, HarmLabel) == 1 &&
      PlantLabel !in Rename(f).columns) ==> r == Failure(KeyError(PlantLabel))
    ensures r.Success? ==> forall x :: x in r.value ==> Complete(x)
    ensures r.Success? ==> forall i :: 0 <= i < |f.rows| ==>
      (CoerceRow(Rename(f).columns, f.rows[i], p) in r.value <==> Complete(CoerceRow(Rename(f).columns, f.rows[i], p)))
    ensures r.Success? ==> IsSubsequence(r.value, CoerceAll(Rename(f), p))
    ensures r.Success? ==> r.value == Filter(Complete, CoerceAll(Rename(f), p))
    ensures r.Success? ==> |r.value| == Count(Complete, CoerceAll(Rename(f), p))
  {
    var g := Rename(f);
    OccurrencesPositive(g.columns, DateLabel);
    OccurrencesPositive(g.columns, HarmLabel);
    if DateLabel !in g.columns then Failure(KeyError(DateLabel))
    else if Occurrences(g.columns, DateLabel) > 1 then Failure(ValueError(DateLabel))
    else if HarmLabel !in g.columns then Failure(KeyError(HarmLabel))
    else if Occurrences(g.columns, HarmLabel) > 1 then Failure(TypeError(HarmLabel))
    else if PlantLabel !in g.columns then Failure(KeyError(PlantLabel))
    else
      var coerced := CoerceAll(g, p);
      assert forall i :: 0 <= i < |f.rows| ==> CoerceRow(g.columns, f.rows[i], p) in coerced by {
        forall i | 0 <= i < |f.rows| ensures CoerceRow(g.columns, f.rows[i], p) in coerced {
          assert coerced[i] == CoerceRow(g.columns, f.rows[i], p);
        }
      }
      CleanRowsIsOneFilter(coerced);
      CleanRowsLength(coerced);
      Success(CleanRows(coerced))
  }

  /**
   * Cleaning succeeds exactly when the date and the harm column each arrive
   * once, under their source name or their semantic name but not both, and the
   * plant column arrives under either name.
   */
  lemma CleanSucceedsIff(f: Frame, p: Parsers)
    requires WellFormed(f)
    ensures Clean(f, p).Success? <==>
      Occurrences(f.columns, "stebejimo_data") + Occurrences(f.columns, DateLabel) == 1 &&
      Occurrences(f.columns, "zalingumo_ivertis") + Occurrences(f.columns, HarmLabel) == 1 &&
      ("augalo_pavadinimas" in f.columns || PlantLabel in f.columns)
  {
    var cols := Rename(f).columns;
    RenameOccurrences(f.columns, "stebejimo_data");
    RenameOccurrences(f.columns, "zalingumo_ivertis");
    OccurrencesPositive(cols, DateLabel);
    OccurrencesPositive(cols, HarmLabel);
    RequiredLabelPresent(f.columns, "augalo_pavadinimas");
  }

  /**
   * A frame carrying both the Lithuanian and the semantic date label ends up
   * with two date columns, and date coercion raises.
   */
  lemma CleanDateCollision(p: Parsers)
    ensures Clean(Frame(["stebejimo_data", DateLabel, "zalingumo_ivertis", "augalo_pavadinimas"], []), p)
      == Failure(ValueError(DateLabel))
  {
    var f := Frame(["stebejimo_data", DateLabel, "zalingumo_ivertis", "augalo_pavadinimas"], []);
    var cols := Rename(f).columns;
    assert cols == [DateLabel, DateLabel, HarmLabel, PlantLabel];
    assert cols[1..] == [DateLabel, HarmLabel, PlantLabel];
    OccurrencesPositive(cols[1..], DateLabel);
    assert Occurrences(cols, DateLabel) == 1 + Occurrences(cols[1..], DateLabel);
  }

  /** The frame a failed fetch yields has no columns, so cleaning it raises on the date column. */
  lemma CleanEmptyFrame(p: Parsers)
    ensures Clean(Frame([], []), p) == Failure(KeyError(DateLabel))
  {
  }
}
