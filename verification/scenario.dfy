/** A worked example: three observations, one whose harm value does not parse. */
module Scenario {
  import opened Wrappers
  import opened Seqs
  import opened Records
  import opened Frames
  import opened Cleaning
  import opened Grouping
  import opened Aggregation

  const Wheat1: Row := Row(Some("Wheat"), Some(10.0), Some(Date(2023, 2, 1)), map[])
  const Wheat2: Row := Row(Some("Wheat"), Some(5.0), Some(Date(2023, 2, 3)), map[])
  /** Its harm cell "abc" coerced to missing. */
  const Corn: Row := Row(Some("Corn"), None, Some(Date(2023, 1, 1)), map[])

  /** The Corn row is dropped; the Wheat rows stay, in order. */
  lemma ExampleClean()
    ensures CleanRows([Wheat1, Wheat2, Corn]) == [Wheat1, Wheat2]
  {
    CleanRowsIsOneFilter([Wheat1, Wheat2, Corn]);
    assert [Wheat1, Wheat2, Corn][1..] == [Wheat2, Corn];
    assert [Wheat2, Corn][1..] == [Corn];
    assert [Corn][1..] == [];
    assert Filter(Complete, [Corn]) == [];
    assert Filter(Complete, [Wheat2, Corn]) == [Wheat2];
  }

  /** The three observations as fetched, under their Lithuanian column names. */
  const Fetched: Frame := Frame(
    ["stebejimo_data", "augalo_pavadinimas", "zalingumo_ivertis"],
    [[Some("01/02/2023"), Some("Wheat"), Some("10")],
     [Some("03/02/2023"), Some("Wheat"), Some("5")],
     [Some("01/01/2023"), Some("Corn"), Some("abc")]])

  /** What the two parsers are assumed to make of the example's texts (dates day first). */
  predicate ExampleParsers(p: Parsers) {
    && p.date("01/02/2023") == Some(Date(2023, 2, 1))
    && p.date("03/02/2023") == Some(Date(2023, 2, 3))
    && p.date("01/01/2023") == Some(Date(2023, 1, 1))
    && p.number("10") == Some(10.0)
    && p.number("5") == Some(5.0)
    && p.number("abc") == None
  }

  /** The fetched columns under their semantic names. */
  const Renamed: seq<string> := [DateLabel, PlantLabel, HarmLabel]

  /** A fetched row with all three cells present, coerced under the renamed labels. */
  lemma CoerceExampleRow(date: string, plant: string, harm: string, p: Parsers)
    ensures CoerceRow(Renamed, [Some(date), Some(plant), Some(harm)], p)
      == Row(Some(plant), p.number(harm), p.date(date), map[])
  {
    assert IndexOf(Renamed, DateLabel) == 0;
    assert IndexOf(Renamed, PlantLabel) == 1;
    assert IndexOf(Renamed, HarmLabel) == 2;
    var r := CoerceRow(Renamed, [Some(date), Some(plant), Some(harm)], p);
    assert forall c :: c !in r.extras;
  }

  /** The fetched frame's Lithuanian labels become the semantic ones. */
  lemma FetchedRenamed()
    ensures Rename(Fetched).columns == Renamed
    ensures WellFormed(Rename(Fetched)) && HasRequired(Rename(Fetched).columns)
  {
    var cols := Fetched.columns;
    assert RenameLabel(cols[0]) == DateLabel;
    assert RenameLabel(cols[1]) == PlantLabel;
    assert RenameLabel(cols[2]) == HarmLabel;
  }

  /** Row `k` of the fetched frame, all of whose cells are present, coerced. */
  lemma CoerceFetchedRow(p: Parsers, k: nat, date: string, plant: string, harm: string)
    requires k < |Fetched.rows| && Fetched.rows[k] == [Some(date), Some(plant), Some(harm)]
    ensures WellFormed(Rename(Fetched)) && HasRequired(Rename(Fetched).columns)
    ensures |CoerceAll(Rename(Fetched), p)| == 3
    ensures CoerceAll(Rename(Fetched), p)[k] == Row(Some(plant), p.number(harm), p.date(date), map[])
  {
    FetchedRenamed();
    CoerceExampleRow(date, plant, harm, p);
  }

  /** Renamed and coerced, the fetched rows are Wheat1, Wheat2 and Corn. */
  lemma ExampleCoerce(p: Parsers)
    requires ExampleParsers(p)
    ensures WellFormed(Rename(Fetched)) && HasRequired(Rename(Fetched).columns)
    ensures CoerceAll(Rename(Fetched), p) == [Wheat1, Wheat2, Corn]
  {
    CoerceFetchedRow(p, 0, "01/02/2023", "Wheat", "10");
    CoerceFetchedRow(p, 1, "03/02/2023", "Wheat", "5");
    CoerceFetchedRow(p, 2, "01/01/2023", "Corn", "abc");
    ThreeElements(CoerceAll(Rename(Fetched), p), Wheat1, Wheat2, Corn);
  }

  /** A sequence of length three is the display of its elements. */
  lemma ThreeElements<T>(s: seq<T>, a: T, b: T, c: T)
    requires |s| == 3 && s[0] == a && s[1] == b && s[2] == c
    ensures s == [a, b, c]
  {
  }

  /** Cleaning the fetched frame drops the Corn row and keeps the Wheat rows in order. */
  lemma ExampleCleanFrame(p: Parsers)
    requires ExampleParsers(p)
    ensures Clean(Fetched, p) == Success([Wheat1, Wheat2])
  {
    var cols := Fetched.columns;
    assert cols[1..] == ["augalo_pavadinimas", "zalingumo_ivertis"];
    assert cols[1..][1..] == ["zalingumo_ivertis"];
    assert Occurrences(cols, "stebejimo_data") == 1;
    assert Occurrences(cols, DateLabel) == 0;
    assert Occurrences(cols, "zalingumo_ivertis") == 1;
    assert Occurrences(cols, HarmLabel) == 0;
    CleanSucceedsIff(Fetched, p);
    ExampleCoerce(p);
    ExampleClean();
    CleanRowsIsOneFilter([Wheat1, Wheat2, Corn]);
  }

  /** The top-plants view of the cleaned example is Wheat with 15. */
  lemma ExampleTopPlants()
    ensures TopPlants([Wheat1, Wheat2]) == [PlantTotal("Wheat", 15.0)]
    ensures TopPlants([Wheat1, Wheat2], -1) == []
  {
    var rows := [Wheat1, Wheat2];
    assert rows[1..] == [Wheat2];
    assert [Wheat2][1..] == [];
    assert KeySet(rows, PlantKey) == {"Wheat"} by {
      assert Wheat1 in rows && PlantKey(Wheat1) == Some("Wheat");
      forall r | r in rows ensures PlantKey(r) == Some("Wheat") {
      }
    }
    assert SumFor([Wheat2], PlantKey, "Wheat") == 5.0 + SumFor([], PlantKey, "Wheat");
    assert SumFor(rows, PlantKey, "Wheat") == 15.0;
    var top := TopPlants(rows);
    assert |top| == 1;
    assert top[0] in top;
    assert |TopPlants(rows, -1)| == 0;
  }

  /** The yearly trend of the cleaned example is 2023 with 15. */
  lemma ExampleTrend()
    ensures YearlyTrend([Wheat1, Wheat2]) == [YearTotal(2023, 15.0)]
  {
    var rows := [Wheat1, Wheat2];
    assert rows[1..] == [Wheat2];
    assert [Wheat2][1..] == [];
    assert KeySet(rows, YearKey) == {2023} by {
      assert Wheat1 in rows && YearKey(Wheat1) == Some(2023);
      forall r | r in rows ensures YearKey(r) == Some(2023) {
      }
    }
    assert SumFor([Wheat2], YearKey, 2023) == 5.0 + SumFor([], YearKey, 2023);
    assert SumFor(rows, YearKey, 2023) == 15.0;
    var trend := YearlyTrend(rows);
    assert |trend| == 1;
    assert trend[0] in trend;
  }
}
