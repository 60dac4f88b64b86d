/** Reshaping one file's sanitised rows (__main__.py lines 47-62): the
    melt of the three depth columns into tagged observations, and the
    optional table of ambient-air readings. */
module Reshaper {
  import opened Records
  import opened Sanitizer

  /** The value column the melt reads for a depth tag (temp1 is "T",
      temp2 is "M", temp3 is "B"). */
  function Reading(r: Row, d: Depth): Cell
  {
    match d
    case Top => r.temp1
    case Middle => r.temp2
    case Bottom => r.temp3
  }

  /** The position of a depth's block in the melted table. */
  function Block(d: Depth): nat
  {
    match d
    case Top => 0
    case Middle => 1
    case Bottom => 2
  }

  function MeltColumn(rows: seq<Row>, d: Depth, key: FileKey): seq<Obs>
  {
    seq(|rows|, i requires 0 <= i < |rows| =>
      Obs(key.side, key.location, d, rows[i].date, rows[i].time, Reading(rows[i], d)))
  }

  /** The melt with date and time as identifiers and the three depth
      columns as values, tagged with the depth and stamped with the file's
      side and location. */
  function Melt(rows: seq<Row>, key: FileKey): (table: seq<Obs>)
    ensures |table| == 3 * |rows|
    ensures forall j :: 0 <= j < |table| ==> table[j].side == key.side && table[j].location == key.location
  {
    MeltColumn(rows, Top, key) + MeltColumn(rows, Middle, key) + MeltColumn(rows, Bottom, key)
  }

  /** The layout of the melted table: the first N rows are the temp1
      readings tagged T, the next N the temp2 readings tagged M, the last N
      the temp3 readings tagged B, each with its row's date and time. */
  lemma MeltLayout(rows: seq<Row>, key: FileKey, d: Depth, i: nat)
    requires i < |rows|
    ensures Block(d) * |rows| + i < |Melt(rows, key)|
    ensures Melt(rows, key)[Block(d) * |rows| + i]
            == Obs(key.side, key.location, d, rows[i].date, rows[i].time, Reading(rows[i], d))
  {
    var n := |rows|;
    var table := Melt(rows, key);
    assert table[..n] == MeltColumn(rows, Top, key);
    assert table[n..2 * n] == MeltColumn(rows, Middle, key);
    assert table[2 * n..] == MeltColumn(rows, Bottom, key);
    match d
    case Top => assert table[i] == table[..n][i];
    case Middle => assert table[n + i] == table[n..2 * n][i];
    case Bottom => assert table[2 * n + i] == table[2 * n..][i];
  }

  /** Every melted observation carries the file's side and location and
      the date, time and reading at its depth of one of the input rows. */
  lemma MeltProvenance(rows: seq<Row>, key: FileKey)
    ensures forall o :: o in Melt(rows, key) ==>
              o.side == key.side && o.location == key.location &&
              exists s :: s in rows && o.date == s.date && o.time == s.time && o.temperature == Reading(s, o.depth)
  {
    var n := |rows|;
    var table := Melt(rows, key);
    forall j | 0 <= j < |table|
      ensures exists s :: s in rows && table[j].date == s.date && table[j].time == s.time &&
                table[j].temperature == Reading(s, table[j].depth)
    {
      var d := if j < n then Top else if j < 2 * n then Middle else Bottom;
      var i := j - Block(d) * n;
      MeltLayout(rows, key, d, i);
      assert rows[i] in rows;
    }
  }

  /** The three readings of a row, as the inverse of the melt recovers them. */
  datatype Wide = Wide(date: string, time: nat, temp1: Cell, temp2: Cell, temp3: Cell)

  function Project(r: Row): Wide
  {
    Wide(r.date, r.time, r.temp1, r.temp2, r.temp3)
  }

  /** The pivot back from a melted table of 3N rows to N wide rows. */
  function Unmelt(table: seq<Obs>): (wide: seq<Wide>)
    requires |table| % 3 == 0
  {
    var n := |table| / 3;
    seq(n, i requires 0 <= i < n =>
      Wide(table[i].date, table[i].time, table[i].temperature,
           table[n + i].temperature, table[2 * n + i].temperature))
  }

  /** The melt loses nothing: pivoting it back gives every row's date,
      time and three depth readings, in the input order. */
  lemma UnmeltMelt(rows: seq<Row>, key: FileKey)
    ensures |Unmelt(Melt(rows, key))| == |rows|
    ensures forall i :: 0 <= i < |rows| ==> Unmelt(Melt(rows, key))[i] == Project(rows[i])
  {
    var n := |rows|;
    var table := Melt(rows, key);
    var wide := Unmelt(table);
    assert |wide| == n;
    forall i | 0 <= i < n
      ensures wide[i] == Project(rows[i])
    {
      MeltLayout(rows, key, Top, i);
      MeltLayout(rows, key, Middle, i);
      MeltLayout(rows, key, Bottom, i);
      assert table[i].temperature == rows[i].temp1;
      assert table[n + i].temperature == rows[i].temp2;
      assert table[2 * n + i].temperature == rows[i].temp3;
      assert wide[i] == Wide(table[i].date, table[i].time, table[i].temperature,
                             table[n + i].temperature, table[2 * n + i].temperature);
    }
  }

  /** Melting sanitised rows gives positive numeric temperatures, and in
      every row of the pivot the T reading exceeds the M reading, which
      exceeds the B reading. */
  lemma MeltSanitized(rows: seq<Row>, key: FileKey)
    requires forall i :: 0 <= i < |rows| ==> IsSanitized(rows[i])
    ensures forall j :: 0 <= j < |Melt(rows, key)| ==> Positive(Melt(rows, key)[j].temperature)
    ensures forall w :: w in Unmelt(Melt(rows, key)) ==> Greater(w.temp1, w.temp2) && Greater(w.temp2, w.temp3)
  {
    var n := |rows|;
    var table := Melt(rows, key);
    forall j | 0 <= j < |table|
      ensures Positive(table[j].temperature)
    {
      var i := j % n;
      var d := if j < n then Top else if j < 2 * n then Middle else Bottom;
      MeltLayout(rows, key, d, i);
    }
    UnmeltMelt(rows, key);
  }

  /** The coerced ambient column holds a value, `notnull()` after
      `to_numeric(errors="coerce")`. */
  predicate IsNumeric(c: Cell)
  {
    ToNumeric(c).Number?
  }

  /** `.any()` over the coerced ambient column. */
  function AnyNumericAmbient(rows: seq<Row>): (b: bool)
    ensures b <==> exists i :: 0 <= i < |rows| && IsNumeric(rows[i].temp4)
  {
    if |rows| == 0 then false
    else IsNumeric(rows[0].temp4) || AnyNumericAmbient(rows[1..])
  }

  /** The air table of a file: produced only when some surviving row has
      a numeric ambient reading, and then one row per surviving row holding
      the location, date, time and the ambient cell as the temperature. */
  function AirTable(rows: seq<Row>, location: string): (air: Option<seq<AirObs>>)
    ensures air.Some? <==> exists i :: 0 <= i < |rows| && IsNumeric(rows[i].temp4)
    ensures air.Some? ==> |air.value| == |rows|
    ensures air.Some? ==> forall i :: 0 <= i < |rows| ==>
              air.value[i] == AirObs(location, rows[i].date, rows[i].time, rows[i].temp4)
  {
    if AnyNumericAmbient(rows) then
      Some(seq(|rows|, i requires 0 <= i < |rows| =>
        AirObs(location, rows[i].date, rows[i].time, rows[i].temp4)))
    else None
  }
}
