/** The whole cleaning pipeline of one run (__main__.py lines 13-81): a loop
    over the directory's files that appends one melted table per data
    file and one air table per data file with ambient readings, followed by
    the aggregation of both lists. The directory listing and the CSV reader
    are replaced by the list of files with their rows. */
module Pipeline {
  import opened Records
  import opened Seqs
  import opened FileNames
  import opened Sanitizer
  import opened Reshaper
  import opened Aggregator

  /** A file of the directory: its name and its rows as read. */
  datatype InputFile = InputFile(name: string, rows: seq<Row>)

  /** The two accumulating lists, `cleaned_dfs` and `air_dfs`. */
  datatype Parts = Parts(depth: seq<seq<Obs>>, air: seq<seq<AirObs>>)

  /** The two final tables, `depth_temp` and `air_df`. */
  datatype Tables = Tables(depth: seq<DepthRow>, air: seq<AirRow>)

  predicate IsDataEntry(f: InputFile)
  {
    IsDataFile(f.name)
  }

  /** One iteration of the per-file loop (lines 18-62). */
  function Step(acc: Parts, f: InputFile): Result<Parts>
  {
    if !IsDataFile(f.name) then Ok(acc)
    else
      match Decode(f.name)
      case Err(e) => Err(e)
      case Ok(key) =>
        var rows := Sanitize(f.rows);
        var air := AirTable(rows, key.location);
        Ok(Parts(acc.depth + [Melt(rows, key)], if air.Some? then acc.air + [air.value] else acc.air))
  }

  /** The lists after the loop has visited `files` in order; the first
      undecodable data file name aborts the run. */
  function Collect(files: seq<InputFile>): Result<Parts>
  {
    if |files| == 0 then Ok(Parts([], []))
    else
      match Collect(files[..|files| - 1])
      case Err(e) => Err(e)
      case Ok(acc) => Step(acc, files[|files| - 1])
  }

  /** Lines 66-81: concatenation (which fails on an empty list of depth
      tables), elapsed times (whose row-wise computation fails when the
      combined table has no rows), and the air table, empty when there is
      none. */
  function Aggregate(parts: Parts): Result<Tables>
  {
    if |parts.depth| == 0 then Err(NoTablesToConcatenate)
    else if |Flatten(parts.depth)| == 0 then Err(ElapsedOfEmptyTable)
    else Ok(Tables(WithElapsed(Flatten(parts.depth)), DropAirDate(Flatten(parts.air))))
  }

  /** The outcome of a run over the given files. */
  function Process(files: seq<InputFile>): Result<Tables>
  {
    match Collect(files)
    case Err(e) => Err(e)
    case Ok(parts) => Aggregate(parts)
  }

  /** Once a prefix of the files has failed, the whole run fails with the
      same error. */
  lemma {:induction false} CollectStopsAtError(files: seq<InputFile>, n: nat)
    requires n <= |files|
    requires Collect(files[..n]).Err?
    ensures Collect(files) == Collect(files[..n])
    decreases |files|
  {
    if n == |files| {
      assert files[..n] == files;
    } else {
      var prefix := files[..|files| - 1];
      assert prefix[..n] == files[..n];
      CollectStopsAtError(prefix, n);
    }
  }

  /** The script's loop and aggregation: the lists are accumulated file by
      file, and the result is that of `Process`. */
  method Run(files: seq<InputFile>) returns (result: Result<Tables>)
    ensures result == Process(files)
  {
    var cleaned: seq<seq<Obs>> := [];
    var airs: seq<seq<AirObs>> := [];
    for n := 0 to |files|
      invariant Collect(files[..n]) == Ok(Parts(cleaned, airs))
    {
      assert files[..n + 1][..n] == files[..n];
      var f := files[n];
      if IsDataFile(f.name) {
        var key := Decode(f.name);
        if key.Err? {
          CollectStopsAtError(files, n + 1);
          return Err(key.error);
        }
        var rows := Sanitize(f.rows);
        cleaned := cleaned + [Melt(rows, key.value)];
        var air := AirTable(rows, key.value.location);
        if air.Some? {
          airs := airs + [air.value];
        }
      }
    }
    assert files[..|files|] == files;
    if |cleaned| == 0 {
      return Err(NoTablesToConcatenate);
    }
    var table := Flatten(cleaned);
    if |table| == 0 {
      return Err(ElapsedOfEmptyTable);
    }
    var depth := WithElapsed(table);
    var air := if |airs| > 0 then Flatten(airs) else [];
    result := Ok(Tables(depth, DropAirDate(air)));
  }

  /** Appending one file to the list runs one more loop iteration. */
  lemma CollectSnoc(files: seq<InputFile>, f: InputFile)
    ensures Collect(files + [f]) == match Collect(files)
                                    case Err(e) => Err(e)
                                    case Ok(acc) => Step(acc, f)
  {
    assert (files + [f])[..|files|] == files;
  }

  /** Files whose names do not end in ".CSV" contribute nothing: the run
      over all files equals the run over the data files alone. */
  lemma {:induction false} NonDataFilesIgnored(files: seq<InputFile>)
    ensures Collect(files) == Collect(Filter(files, IsDataEntry))
    ensures Process(files) == Process(Filter(files, IsDataEntry))
  {
    if |files| > 0 {
      var prefix, last := files[..|files| - 1], files[|files| - 1];
      NonDataFilesIgnored(prefix);
      assert files == prefix + [last];
      FilterAppend(prefix, [last], IsDataEntry);
      assert [last][1..] == [];
      if IsDataEntry(last) {
        CollectSnoc(Filter(prefix, IsDataEntry), last);
      } else {
        assert Filter(files, IsDataEntry) == Filter(prefix, IsDataEntry);
      }
    }
  }

  /** Every data file name decodes. */
  predicate AllDecodable(files: seq<InputFile>)
  {
    forall i :: 0 <= i < |files| && IsDataFile(files[i].name) ==> Decode(files[i].name).Ok?
  }

  /** The number of depth-table rows the data files give: three per
      surviving row of each. */
  function ExpectedDepthRows(files: seq<InputFile>): nat
  {
    if |files| == 0 then 0
    else
      var last := files[|files| - 1];
      ExpectedDepthRows(files[..|files| - 1]) + (if IsDataFile(last.name) then 3 * |Sanitize(last.rows)| else 0)
  }

  /** The number of air-table rows: every surviving row of each data file
      that has some numeric ambient reading among its surviving rows. */
  function ExpectedAirRows(files: seq<InputFile>): nat
  {
    if |files| == 0 then 0
    else
      var last := files[|files| - 1];
      var rows := Sanitize(last.rows);
      ExpectedAirRows(files[..|files| - 1]) + (if IsDataFile(last.name) && AnyNumericAmbient(rows) then |rows| else 0)
  }

  lemma AllDecodableSnoc(prefix: seq<InputFile>, last: InputFile)
    ensures AllDecodable(prefix + [last]) <==>
              AllDecodable(prefix) && (IsDataFile(last.name) ==> Decode(last.name).Ok?)
  {
    var files := prefix + [last];
    if AllDecodable(files) {
      forall i | 0 <= i < |prefix| && IsDataFile(prefix[i].name)
        ensures Decode(prefix[i].name).Ok?
      {
        assert files[i] == prefix[i];
      }
      assert files[|prefix|] == last;
    }
  }

  /** The loop runs to completion exactly when every data file name decodes. */
  lemma {:induction false} CollectOkIff(files: seq<InputFile>)
    ensures Collect(files).Ok? <==> AllDecodable(files)
  {
    if |files| > 0 {
      var prefix, last := files[..|files| - 1], files[|files| - 1];
      assert files == prefix + [last];
      CollectOkIff(prefix);
      AllDecodableSnoc(prefix, last);
    }
  }

  /** One loop iteration over a data file adds one depth table with three
      rows per surviving row, and an air table exactly when one of those
      rows has a numeric ambient value. */
  lemma StepCounts(acc: Parts, f: InputFile)
    requires Step(acc, f).Ok?
    ensures var next := Step(acc, f).value;
            var rows := Sanitize(f.rows);
            && |next.depth| == |acc.depth| + (if IsDataFile(f.name) then 1 else 0)
            && TotalLength(next.depth) == TotalLength(acc.depth) + (if IsDataFile(f.name) then 3 * |rows| else 0)
            && TotalLength(next.air) == TotalLength(acc.air) + (if IsDataFile(f.name) && AnyNumericAmbient(rows) then |rows| else 0)
  {
    if IsDataFile(f.name) {
      var key := Decode(f.name).value;
      var rows := Sanitize(f.rows);
      FlattenSnoc(acc.depth, Melt(rows, key));
      var air := AirTable(rows, key.location);
      if air.Some? {
        FlattenSnoc(acc.air, air.value);
      }
    }
  }

  /** When the loop completes it holds one depth table per data file, and
      the two lists hold the expected numbers of rows. */
  lemma {:induction false} CollectCounts(files: seq<InputFile>)
    requires Collect(files).Ok?
    ensures |Collect(files).value.depth| == |Filter(files, IsDataEntry)|
    ensures TotalLength(Collect(files).value.depth) == ExpectedDepthRows(files)
    ensures TotalLength(Collect(files).value.air) == ExpectedAirRows(files)
  {
    if |files| > 0 {
      var prefix, last := files[..|files| - 1], files[|files| - 1];
      var acc := Collect(prefix).value;
      var next := Collect(files).value;
      assert next == Step(acc, last).value;
      CollectCounts(prefix);
      StepCounts(acc, last);
      var isData := IsDataFile(last.name);
      assert |Filter(files, IsDataEntry)| == |Filter(prefix, IsDataEntry)| + (if isData then 1 else 0) by {
        FilterAppend(prefix, [last], IsDataEntry);
        assert prefix + [last] == files;
        assert [last][1..] == [];
      }
      assert ExpectedDepthRows(files) == ExpectedDepthRows(prefix) + (if isData then 3 * |Sanitize(last.rows)| else 0);
      assert ExpectedAirRows(files) == ExpectedAirRows(prefix)
        + (if isData && AnyNumericAmbient(Sanitize(last.rows)) then |Sanitize(last.rows)| else 0);
    }
  }

  /** A depth observation the loop may accumulate: it holds the side and
      location decoded from the name of a data file of the input, and the
      date, time and reading at its depth of one surviving row of that file. */
  predicate ObsFromDataFile(o: Obs, files: seq<InputFile>)
  {
    exists f :: f in files && IsDataFile(f.name) && Decode(f.name) == Ok(FileKey(o.side, o.location)) &&
      exists s :: s in Sanitize(f.rows) &&
        o.date == s.date && o.time == s.time && o.temperature == Reading(s, o.depth)
  }

  /** Every depth observation the loop accumulates has a positive numeric
      temperature and comes from a surviving row of a data file of the
      input, as `ObsFromDataFile` says. */
  lemma {:induction false} CollectObservations(files: seq<InputFile>)
    requires Collect(files).Ok?
    ensures forall o :: o in Flatten(Collect(files).value.depth) ==>
              Positive(o.temperature) && ObsFromDataFile(o, files)
  {
    if |files| > 0 {
      var prefix, last := files[..|files| - 1], files[|files| - 1];
      assert files == prefix + [last];
      CollectObservations(prefix);
      var acc := Collect(prefix).value;
      forall o | o in Flatten(acc.depth)
        ensures ObsFromDataFile(o, files)
      {
        var f :| f in prefix && IsDataFile(f.name) && Decode(f.name) == Ok(FileKey(o.side, o.location)) &&
          exists s :: s in Sanitize(f.rows) &&
            o.date == s.date && o.time == s.time && o.temperature == Reading(s, o.depth);
        assert f in files;
      }
      if IsDataFile(last.name) {
        var key := Decode(last.name).value;
        var rows := Sanitize(last.rows);
        var table := Melt(rows, key);
        FlattenSnoc(acc.depth, table);
        SanitizeSound(last.rows);
        MeltSanitized(rows, key);
        MeltProvenance(rows, key);
        forall o | o in table
          ensures ObsFromDataFile(o, files)
        {
          assert last in files;
        }
      }
    }
  }

  /** Every surviving row of every data file gives, at every depth, an
      accumulated observation with the file's side and location and the
      row's date, time and reading at that depth. */
  lemma {:induction false} CollectDepthComplete(files: seq<InputFile>, f: InputFile, key: FileKey, s: Row, d: Depth)
    requires Collect(files).Ok?
    requires f in files && IsDataFile(f.name) && Decode(f.name) == Ok(key)
    requires s in Sanitize(f.rows)
    ensures Obs(key.side, key.location, d, s.date, s.time, Reading(s, d)) in Flatten(Collect(files).value.depth)
  {
    var prefix, last := files[..|files| - 1], files[|files| - 1];
    assert files == prefix + [last];
    var acc := Collect(prefix).value;
    if IsDataFile(last.name) {
      var rows := Sanitize(last.rows);
      var table := Melt(rows, Decode(last.name).value);
      FlattenSnoc(acc.depth, table);
      if f == last {
        var i :| 0 <= i < |rows| && rows[i] == s;
        MeltLayout(rows, key, d, i);
        assert table[Block(d) * |rows| + i] in table;
      } else {
        CollectDepthComplete(prefix, f, key, s, d);
      }
    } else {
      assert f != last;
      CollectDepthComplete(prefix, f, key, s, d);
    }
  }

  /** A run fails exactly when some data file name does not decode,
      there is no data file at all, or no data file has a surviving row;
      the depth table has three rows per
      surviving row of every data file, and the air table one row per
      surviving row of every data file with a numeric ambient reading. */
  lemma ProcessOutcome(files: seq<InputFile>)
    ensures Process(files).Ok? <==>
              AllDecodable(files) && |Filter(files, IsDataEntry)| > 0 && ExpectedDepthRows(files) > 0
    ensures Process(files).Ok? ==>
              && |Process(files).value.depth| == ExpectedDepthRows(files)
              && |Process(files).value.air| == ExpectedAirRows(files)
  {
    CollectOkIff(files);
    if Collect(files).Ok? {
      CollectCounts(files);
      FlattenLength(Collect(files).value.depth);
      FlattenLength(Collect(files).value.air);
      if |Filter(files, IsDataEntry)| == 0 {
        assert |Collect(files).value.depth| == 0;
      }
    }
  }

  /** Every row of the final depth table has a positive numeric
      temperature, a non-negative dTime, the side and location decoded
      from a data file of the input and the time and reading at its depth
      of a surviving row of that file, and a row of its (Side, Location,
      Depth) group with dTime 0. */
  lemma ProcessDepthRows(files: seq<InputFile>, i: nat)
    requires Process(files).Ok? && i < |Process(files).value.depth|
    ensures var r := Process(files).value.depth[i];
            && Positive(r.temperature)
            && r.dTime >= 0
            && (exists f :: f in files && IsDataFile(f.name) && Decode(f.name) == Ok(FileKey(r.side, r.location)) &&
                  exists s :: s in Sanitize(f.rows) && r.time == s.time && r.temperature == Reading(s, r.depth))
            && exists j :: 0 <= j < |Process(files).value.depth| &&
                 var s := Process(files).value.depth[j];
                 s.side == r.side && s.location == r.location && s.depth == r.depth && s.dTime == 0
  {
    CollectObservations(files);
    var table := Flatten(Collect(files).value.depth);
    var out := Process(files).value.depth;
    assert out == WithElapsed(table);
    assert table[i] in table;
    ElapsedZeroInEveryGroup(table, i);
  }

  /** Every surviving row of every data file gives, at every depth, a row
      of the final depth table with the file's side and location, that
      depth, and the row's time and reading at that depth. */
  lemma ProcessDepthComplete(files: seq<InputFile>, f: InputFile, s: Row, d: Depth)
    requires Process(files).Ok?
    requires f in files && IsDataFile(f.name) && s in Sanitize(f.rows)
    ensures Decode(f.name).Ok?
    ensures exists j :: 0 <= j < |Process(files).value.depth| &&
              var r := Process(files).value.depth[j];
              r.side == Decode(f.name).value.side && r.location == Decode(f.name).value.location &&
              r.depth == d && r.time == s.time && r.temperature == Reading(s, d)
  {
    CollectOkIff(files);
    var i :| 0 <= i < |files| && files[i] == f;
    var key := Decode(f.name).value;
    CollectDepthComplete(files, f, key, s, d);
    var table := Flatten(Collect(files).value.depth);
    var k :| 0 <= k < |table| && table[k] == Obs(key.side, key.location, d, s.date, s.time, Reading(s, d));
    assert Process(files).value.depth == WithElapsed(table);
  }

  /** An air observation the loop may accumulate: it comes from a surviving
      row of a data file of the input that has some numeric ambient
      reading, and holds the file's location with that row's date, time
      and raw ambient cell. */
  predicate AirFromDataFile(a: AirObs, files: seq<InputFile>)
  {
    exists f :: f in files && IsDataFile(f.name) && Decode(f.name).Ok? &&
      AnyNumericAmbient(Sanitize(f.rows)) &&
      exists s :: s in Sanitize(f.rows) &&
        a == AirObs(Decode(f.name).value.location, s.date, s.time, s.temp4)
  }

  /** Every air observation the loop accumulates comes from a data file
      of the input, as `AirFromDataFile` says. */
  lemma {:induction false} CollectAirObservations(files: seq<InputFile>)
    requires Collect(files).Ok?
    ensures forall a :: a in Flatten(Collect(files).value.air) ==> AirFromDataFile(a, files)
  {
    if |files| > 0 {
      var prefix, last := files[..|files| - 1], files[|files| - 1];
      assert files == prefix + [last];
      CollectAirObservations(prefix);
      var acc := Collect(prefix).value;
      forall a | a in Flatten(acc.air)
        ensures AirFromDataFile(a, files)
      {
        var f :| f in prefix && IsDataFile(f.name) && Decode(f.name).Ok? &&
          AnyNumericAmbient(Sanitize(f.rows)) &&
          exists s :: s in Sanitize(f.rows) &&
            a == AirObs(Decode(f.name).value.location, s.date, s.time, s.temp4);
        assert f in files;
      }
      if IsDataFile(last.name) {
        var key := Decode(last.name).value;
        var rows := Sanitize(last.rows);
        var air := AirTable(rows, key.location);
        if air.Some? {
          FlattenSnoc(acc.air, air.value);
          forall a | a in air.value
            ensures AirFromDataFile(a, files)
          {
            var i :| 0 <= i < |air.value| && air.value[i] == a;
            assert rows[i] in rows;
            assert last in files;
          }
        }
      }
    }
  }

  /** Every surviving row of a data file with some numeric ambient reading
      is accumulated as an air observation of the file's location. */
  lemma {:induction false} CollectAirComplete(files: seq<InputFile>, f: InputFile, key: FileKey, s: Row)
    requires Collect(files).Ok?
    requires f in files && IsDataFile(f.name) && Decode(f.name) == Ok(key)
    requires AnyNumericAmbient(Sanitize(f.rows)) && s in Sanitize(f.rows)
    ensures AirObs(key.location, s.date, s.time, s.temp4) in Flatten(Collect(files).value.air)
  {
    var prefix, last := files[..|files| - 1], files[|files| - 1];
    assert files == prefix + [last];
    var acc := Collect(prefix).value;
    var rows := Sanitize(last.rows);
    if IsDataFile(last.name) && AnyNumericAmbient(rows) {
      var air := AirTable(rows, Decode(last.name).value.location);
      FlattenSnoc(acc.air, air.value);
      if f == last {
        var i :| 0 <= i < |rows| && rows[i] == s;
        assert air.value[i] == AirObs(key.location, s.date, s.time, s.temp4);
      } else {
        CollectAirComplete(prefix, f, key, s);
      }
    } else {
      assert f != last;
      CollectAirComplete(prefix, f, key, s);
    }
  }

  /** Every row of the final air table holds the location decoded from a
      data file of the input that has some numeric ambient reading among
      its surviving rows, and the time and raw ambient cell of one of
      those rows. */
  lemma ProcessAirRows(files: seq<InputFile>, i: nat)
    requires Process(files).Ok? && i < |Process(files).value.air|
    ensures var r := Process(files).value.air[i];
            exists f :: f in files && IsDataFile(f.name) && Decode(f.name).Ok? &&
              r.location == Decode(f.name).value.location &&
              AnyNumericAmbient(Sanitize(f.rows)) &&
              exists s :: s in Sanitize(f.rows) && r.time == s.time && r.temperature == s.temp4
  {
    CollectAirObservations(files);
    var air := Flatten(Collect(files).value.air);
    assert Process(files).value.air == DropAirDate(air);
    assert air[i] in air;
  }

  /** Every surviving row of a data file with some numeric ambient reading
      appears in the final air table with the file's location, its time and
      its raw ambient cell. */
  lemma ProcessAirComplete(files: seq<InputFile>, f: InputFile, s: Row)
    requires Process(files).Ok?
    requires f in files && IsDataFile(f.name)
    requires AnyNumericAmbient(Sanitize(f.rows)) && s in Sanitize(f.rows)
    ensures Decode(f.name).Ok?
    ensures AirRow(Decode(f.name).value.location, s.time, s.temp4) in Process(files).value.air
  {
    CollectOkIff(files);
    var j :| 0 <= j < |files| && files[j] == f;
    var key := Decode(f.name).value;
    CollectAirComplete(files, f, key, s);
    var air := Flatten(Collect(files).value.air);
    var k :| 0 <= k < |air| && air[k] == AirObs(key.location, s.date, s.time, s.temp4);
    assert Process(files).value.air == DropAirDate(air);
    assert Process(files).value.air[k] == AirRow(key.location, s.time, s.temp4);
  }

  /** When no surviving row of any data file has a numeric ambient
      reading, the air table is empty. */
  lemma {:induction false} NoAmbientNoAirRows(files: seq<InputFile>)
    requires forall f :: f in files && IsDataFile(f.name) ==> !AnyNumericAmbient(Sanitize(f.rows))
    ensures ExpectedAirRows(files) == 0
    ensures Process(files).Ok? ==> Process(files).value.air == []
  {
    if |files| > 0 {
      var prefix := files[..|files| - 1];
      assert forall f :: f in prefix ==> f in files;
      assert files[|files| - 1] in files;
      NoAmbientNoAirRows(prefix);
    }
    ProcessOutcome(files);
  }

  /** With no file at all the concatenation of the depth tables fails. */
  lemma EmptyDirectoryFails()
    ensures Process([]) == Err(NoTablesToConcatenate)
  {
  }

  /** The three observations the example row melts into. */
  lemma ExampleMelt(row: Row)
    requires row.time == 28800 && row.temp1 == Number(150.0) && row.temp2 == Number(100.0) && row.temp3 == Number(50.0)
    ensures WithElapsed(Melt([row], FileKey("1", "2"))) ==
              [ DepthRow("1", "2", Top, 28800, Number(150.0), 0),
                DepthRow("1", "2", Middle, 28800, Number(100.0), 0),
                DepthRow("1", "2", Bottom, 28800, Number(50.0), 0) ]
  {
    var table := Melt([row], FileKey("1", "2"));
    assert table == [ Obs("1", "2", Top, row.date, 28800, Number(150.0)),
                      Obs("1", "2", Middle, row.date, 28800, Number(100.0)),
                      Obs("1", "2", Bottom, row.date, 28800, Number(50.0)) ];
    forall i | 0 <= i < 3
      ensures Elapsed(table, i) == 0
    {
      assert HasKey(table, KeyOf(table[i]));
      var m := GroupMin(table, KeyOf(table[i]));
      var w :| 0 <= w < |table| && KeyOf(table[w]) == KeyOf(table[i]) && table[w].time == m;
    }
  }

  /** The loop over a single file runs one iteration from empty lists. */
  lemma CollectOneFile(f: InputFile)
    ensures Collect([f]) == Step(Parts([], []), f)
  {
    var files := [f];
    assert files[..0] == [];
  }

  /** The loop over the example file alone, for any data file
      name that decodes to side "1" and location "2". */
  lemma ExampleCollect(name: string, row: Row)
    requires IsDataFile(name) && Decode(name) == Ok(FileKey("1", "2"))
    requires row.temp1 == Number(150.0) && row.temp2 == Number(100.0) && row.temp3 == Number(50.0)
    requires row.temp4 == Number(70.0)
    ensures Collect([InputFile(name, [row])]) ==
              Ok(Parts([Melt([row], FileKey("1", "2"))], [[AirObs("2", row.date, row.time, Number(70.0))]]))
  {
    var f := InputFile(name, [row]);
    var key := FileKey("1", "2");
    SanitizeExamples(row.date, row.time, Number(70.0));
    var rows := [row];
    assert Sanitize(rows) == rows;
    assert IsNumeric(rows[0].temp4);
    var air := AirTable(rows, "2");
    assert air.Some?;
    assert air.value == [AirObs("2", row.date, row.time, Number(70.0))];
    CollectOneFile(f);
    var noDepth: seq<seq<Obs>> := [];
    var noAir: seq<seq<AirObs>> := [];
    assert noDepth + [Melt(rows, key)] == [Melt(rows, key)];
    assert noAir + [air.value] == [air.value];
  }

  /** The aggregation of the example file alone, for any data
      file name that decodes to side "1" and location "2". */
  lemma ExampleProcess(name: string, row: Row)
    requires IsDataFile(name) && Decode(name) == Ok(FileKey("1", "2"))
    requires row == Row(row.date, 28800, Number(150.0), Number(100.0), Number(50.0), Number(70.0))
    ensures Process([InputFile(name, [row])]) == Ok(Tables(
              [ DepthRow("1", "2", Top, 28800, Number(150.0), 0),
                DepthRow("1", "2", Middle, 28800, Number(100.0), 0),
                DepthRow("1", "2", Bottom, 28800, Number(50.0), 0) ],
              [ AirRow("2", 28800, Number(70.0)) ]))
  {
    ExampleCollect(name, row);
    var table := Melt([row], FileKey("1", "2"));
    var depthParts: seq<seq<Obs>> := [table];
    assert depthParts[..0] == [];
    assert Flatten(depthParts) == table;
    var air := [AirObs("2", row.date, 28800, Number(70.0))];
    var airParts: seq<seq<AirObs>> := [air];
    assert airParts[..0] == [];
    assert Flatten(airParts) == air;
    assert DropAirDate(air) == [AirRow("2", 28800, Number(70.0))];
    ExampleMelt(row);
    assert Process([InputFile(name, [row])]) == Aggregate(Parts(depthParts, airParts));
  }

  /** An example: one file T1L2.CSV with a single row at 08:00:00
      reading 150, 100, 50 and ambient 70 gives three observations of side
      "1" and location "2", tagged T, M and B, each with dTime 0, and one
      air row of location "2". */
  lemma ProcessExample(date: string)
    ensures var row := Row(date, 28800, Number(150.0), Number(100.0), Number(50.0), Number(70.0));
            Process([InputFile("T1L2.CSV", [row])]) == Ok(Tables(
              [ DepthRow("1", "2", Top, 28800, Number(150.0), 0),
                DepthRow("1", "2", Middle, 28800, Number(100.0), 0),
                DepthRow("1", "2", Bottom, 28800, Number(50.0), 0) ],
              [ AirRow("2", 28800, Number(70.0)) ]))
  {
    DecodeExample();
    ExampleProcess("T1L2.CSV", Row(date, 28800, Number(150.0), Number(100.0), Number(50.0), Number(70.0)));
  }
}
