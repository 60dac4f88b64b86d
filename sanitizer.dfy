/** The row sanitiser of one file (__main__.py lines 26-41): numeric
    coercion of the three depth columns followed by five row filters. */
module Sanitizer {
  import opened Records
  import opened Seqs

  /** The text the logger writes for a reading above the instrument range. */
  const OverLimit: Cell := Text("-OL")

  /** Numeric coercion with `errors="coerce"`: a number stays, anything
      else becomes a missing value. */
  function ToNumeric(c: Cell): Cell
  {
    if c.Number? then c else Missing
  }

  /** Line 26: the three depth columns are coerced; the other columns are kept. */
  function Coerce(r: Row): Row
  {
    r.(temp1 := ToNumeric(r.temp1), temp2 := ToNumeric(r.temp2), temp3 := ToNumeric(r.temp3))
  }

  /** `cell > 0`; a comparison with a missing value is false. */
  predicate Positive(c: Cell)
  {
    c.Number? && c.value > 0.0
  }

  /** `a > b`; a comparison involving a missing value is false. */
  predicate Greater(a: Cell, b: Cell)
  {
    a.Number? && b.Number? && a.value > b.value
  }

  predicate AllPositive(r: Row)
  {
    Positive(r.temp1) && Positive(r.temp2) && Positive(r.temp3)
  }

  predicate NoneOverLimit(r: Row)
  {
    r.temp1 != OverLimit && r.temp2 != OverLimit && r.temp3 != OverLimit
  }

  predicate NoneMissing(r: Row)
  {
    !r.temp1.Missing? && !r.temp2.Missing? && !r.temp3.Missing?
  }

  predicate DepthOrdered(r: Row)
  {
    Greater(r.temp1, r.temp2) && Greater(r.temp2, r.temp3)
  }

  /** What a sanitised row is: three numeric depth readings, all positive
      and strictly decreasing from the top probe to the bottom probe. */
  predicate IsSanitized(r: Row)
  {
    && r.temp1.Number? && r.temp2.Number? && r.temp3.Number?
    && r.temp1.value > r.temp2.value > r.temp3.value > 0.0
  }

  function CoerceAll(rows: seq<Row>): seq<Row>
  {
    seq(|rows|, i requires 0 <= i < |rows| => Coerce(rows[i]))
  }

  /** The stages in the order the script applies them. */
  function Sanitize(rows: seq<Row>): seq<Row>
  {
    var coerced := CoerceAll(rows);                    // line 26
    var positive := Filter(coerced, AllPositive);      // line 30
    var noSentinel := Filter(positive, NoneOverLimit); // line 31
    var present := Filter(noSentinel, NoneMissing);    // line 32
    var ordered := Filter(present, DepthOrdered);      // line 36
    Filter(ordered, NoneMissing)                       // line 40
  }

  /** Coercion changes nothing in a row that is already sanitised, and a
      row is sanitised after coercion exactly when it was before. */
  lemma {:induction false} FilterCoerced(rows: seq<Row>)
    ensures Filter(CoerceAll(rows), IsSanitized) == Filter(rows, IsSanitized)
  {
    if |rows| > 0 {
      FilterCoerced(rows[1..]);
      assert CoerceAll(rows)[1..] == CoerceAll(rows[1..]);
      assert IsSanitized(rows[0]) ==> Coerce(rows[0]) == rows[0];
    }
  }

  /** Once the positivity filter of line 30 has run, the sentinel filter
      and both missing-value filters remove nothing. */
  lemma LaterFiltersRemoveNothing(rows: seq<Row>)
    ensures var positive := Filter(CoerceAll(rows), AllPositive);
            && Filter(positive, NoneOverLimit) == positive
            && Filter(positive, NoneMissing) == positive
            && Filter(Filter(positive, DepthOrdered), NoneMissing) == Filter(positive, DepthOrdered)
  {
    var positive := Filter(CoerceAll(rows), AllPositive);
    FilterKeepsAll(positive, NoneOverLimit);
    FilterKeepsAll(positive, NoneMissing);
    FilterKeepsAll(Filter(positive, DepthOrdered), NoneMissing);
  }

  /** The sanitiser is exactly the order-preserving filter that keeps the
      sanitised rows of the input, unchanged. */
  lemma SanitizeIsFilter(rows: seq<Row>)
    ensures Sanitize(rows) == Filter(rows, IsSanitized)
  {
    var coerced := CoerceAll(rows);
    var positive := Filter(coerced, AllPositive);
    LaterFiltersRemoveNothing(rows);
    FilterTwice(coerced, AllPositive, DepthOrdered, IsSanitized);
    FilterCoerced(rows);
  }

  /** Every surviving row holds three numeric readings with
      temp1 > temp2 > temp3 > 0, and is one of the input rows. */
  lemma SanitizeSound(rows: seq<Row>)
    ensures forall i :: 0 <= i < |Sanitize(rows)| ==>
              IsSanitized(Sanitize(rows)[i]) && Sanitize(rows)[i] in rows
  {
    SanitizeIsFilter(rows);
    FilterMembers(rows, IsSanitized);
  }

  /** Every input row that is sanitised survives. */
  lemma SanitizeComplete(rows: seq<Row>)
    ensures forall i :: 0 <= i < |rows| && IsSanitized(rows[i]) ==> rows[i] in Sanitize(rows)
  {
    SanitizeIsFilter(rows);
    FilterMembers(rows, IsSanitized);
  }

  /** The surviving rows keep their input order: they embed into the input. */
  lemma SanitizeKeepsOrder(rows: seq<Row>) returns (idx: seq<nat>)
    ensures IsEmbedding(Sanitize(rows), rows, idx)
  {
    SanitizeIsFilter(rows);
    idx := FilterEmbeds(rows, IsSanitized);
  }

  /** A row whose readings are out of depth order, or that holds the
      over-limit marker, or a missing value, contributes nothing. */
  lemma SanitizeDropsInvalidRow(r: Row)
    requires !IsSanitized(r)
    ensures Sanitize([r]) == []
  {
    SanitizeIsFilter([r]);
  }

  /** Three example rows: an ordered row is kept, a row with
      temp1 = 100 and temp2 = 150 is dropped, and so is a row whose
      bottom reading is the over-limit marker. */
  lemma SanitizeExamples(date: string, time: nat, ambient: Cell)
    ensures var kept := Row(date, time, Number(150.0), Number(100.0), Number(50.0), ambient);
            Sanitize([kept]) == [kept]
    ensures Sanitize([Row(date, time, Number(100.0), Number(150.0), Number(50.0), ambient)]) == []
    ensures Sanitize([Row(date, time, Number(150.0), Number(100.0), OverLimit, ambient)]) == []
  {
    SanitizeIsFilter([Row(date, time, Number(150.0), Number(100.0), Number(50.0), ambient)]);
    SanitizeDropsInvalidRow(Row(date, time, Number(100.0), Number(150.0), Number(50.0), ambient));
    SanitizeDropsInvalidRow(Row(date, time, Number(150.0), Number(100.0), OverLimit, ambient));
  }
}
