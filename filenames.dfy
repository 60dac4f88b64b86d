/** Selecting the data files by extension and decoding each file name into
    the probe side and location (__main__.py lines 18-21). */
module FileNames {
  import opened Records

  /** The case-sensitive extension of the files that are processed. */
  const Extension: string := ".CSV"

  predicate EndsWith(s: string, suffix: string)
  {
    |suffix| <= |s| && s[|s| - |suffix|..] == suffix
  }

  /** Only file names ending in ".CSV" are read. */
  predicate IsDataFile(name: string)
  {
    EndsWith(name, Extension)
  }

  /** The number of occurrences of `c` in `s`. */
  function Count(s: string, c: char): nat
  {
    if |s| == 0 then 0 else (if s[0] == c then 1 else 0) + Count(s[1..], c)
  }

  /** Splitting a string at every occurrence of a one-character separator,
      as Python's `str.split(sep)` does: one more part than there are
      separators, and no part contains the separator. */
  function Split(s: string, sep: char): (parts: seq<string>)
    ensures |parts| == Count(s, sep) + 1
    ensures forall i :: 0 <= i < |parts| ==> sep !in parts[i]
  {
    if |s| == 0 then [""]
    else
      var rest := Split(s[1..], sep);
      if s[0] == sep then [""] + rest
      else [[s[0]] + rest[0]] + rest[1..]
  }

  /** Joining parts with the separator between consecutive ones. */
  function Join(parts: seq<string>, sep: char): string
    requires |parts| >= 1
  {
    if |parts| == 1 then parts[0] else parts[0] + [sep] + Join(parts[1..], sep)
  }

  /** Joining the parts of a split gives back the original string. */
  lemma {:induction false} JoinSplit(s: string, sep: char)
    ensures Join(Split(s, sep), sep) == s
  {
    if |s| > 0 {
      JoinSplit(s[1..], sep);
      var rest := Split(s[1..], sep);
      if s[0] == sep {
        assert ([""] + rest)[1..] == rest;
      } else {
        var parts := [[s[0]] + rest[0]] + rest[1..];
        if |rest| == 1 {
          assert parts == [[s[0]] + rest[0]];
        } else {
          assert parts[1..] == rest[1..];
          assert Join(rest, sep) == rest[0] + [sep] + Join(rest[1..], sep);
          assert s == [s[0]] + s[1..];
        }
      }
    }
  }

  /** A string without the separator is one part. */
  lemma {:induction false} SplitNoSeparator(a: string, sep: char)
    requires sep !in a
    ensures Split(a, sep) == [a]
  {
    if |a| > 0 {
      SplitNoSeparator(a[1..], sep);
      assert [a[0]] + a[1..] == a;
    }
  }

  /** A separator-free prefix is glued to the first part of the rest. */
  lemma {:induction false} SplitPrefix(a: string, t: string, sep: char)
    requires sep !in a
    ensures Split(a + t, sep) == [a + Split(t, sep)[0]] + Split(t, sep)[1..]
  {
    if |a| > 0 {
      assert (a + t)[1..] == a[1..] + t;
      SplitPrefix(a[1..], t, sep);
      assert [a[0]] + (a[1..] + Split(t, sep)[0]) == a + Split(t, sep)[0];
    } else {
      var parts := Split(t, sep);
      assert a + t == t && a + parts[0] == parts[0];
      assert [parts[0]] + parts[1..] == parts;
    }
  }

  /** Splitting a join of separator-free parts gives back the parts. */
  lemma {:induction false} SplitJoin(parts: seq<string>, sep: char)
    requires |parts| >= 1
    requires forall i :: 0 <= i < |parts| ==> sep !in parts[i]
    ensures Split(Join(parts, sep), sep) == parts
  {
    if |parts| == 1 {
      SplitNoSeparator(parts[0], sep);
    } else {
      SplitJoin(parts[1..], sep);
      var tail := [sep] + Join(parts[1..], sep);
      assert Join(parts, sep) == parts[0] + tail;
      assert tail[1..] == Join(parts[1..], sep);
      SplitPrefix(parts[0], tail, sep);
      assert Split(tail, sep) == [""] + parts[1..];
      assert parts[0] + "" == parts[0];
    }
  }

  /** The name up to its first '.', `filename.split(".")[0]`. */
  function Stem(name: string): string
  {
    Split(name, '.')[0]
  }

  /** The stem is the longest prefix of the name without a '.'. */
  lemma StemIsPrefixBeforeFirstDot(name: string)
    ensures '.' !in Stem(name)
    ensures |Stem(name)| <= |name| && name[..|Stem(name)|] == Stem(name)
    ensures |Stem(name)| < |name| ==> name[|Stem(name)|] == '.'
  {
    var parts := Split(name, '.');
    JoinSplit(name, '.');
    if |parts| > 1 {
      assert name == parts[0] + ['.'] + Join(parts[1..], '.');
    }
  }

  /** Decoding `<x><side>L<location>.<ext>`: the stem must split on 'L'
      into exactly two parts (otherwise unpacking them fails), and the
      part before 'L' must have a second character, which is the side;
      the part after 'L' is the location. */
  function Decode(name: string): (r: Result<FileKey>)
    ensures r.Ok? ==> |r.value.side| == 1 && 'L' !in r.value.location
  {
    var parts := Split(Stem(name), 'L');
    if |parts| != 2 then Err(StemNotTwoParts)
    else if |parts[0]| < 2 then Err(SideIndexOutOfRange)
    else Ok(FileKey([parts[0][1]], parts[1]))
  }

  /** When the stem holds exactly one 'L', decoding succeeds exactly when
      the part before it has at least two characters; the side is that
      part's second character and the location is everything after 'L'. */
  lemma DecodeOneSeparator(name: string, before: string, after: string)
    requires Stem(name) == before + "L" + after
    requires 'L' !in before && 'L' !in after
    ensures |before| >= 2 ==> Decode(name) == Ok(FileKey([before[1]], after))
    ensures |before| < 2 ==> Decode(name) == Err(SideIndexOutOfRange)
  {
    assert Join([before, after], 'L') == before + "L" + after;
    SplitJoin([before, after], 'L');
  }

  /** A stem with no 'L', or with more than one, is rejected. */
  lemma DecodeNeedsOneSeparator(name: string)
    requires Count(Stem(name), 'L') != 1
    ensures Decode(name) == Err(StemNotTwoParts)
  {
  }

  /** Every successful decoding comes from a stem with exactly one 'L'. */
  lemma DecodeOkShape(name: string)
    requires Decode(name).Ok?
    ensures Count(Stem(name), 'L') == 1
    ensures exists before :: Stem(name) == before + "L" + Decode(name).value.location
                             && |before| >= 2 && Decode(name).value.side == [before[1]]
  {
    var parts := Split(Stem(name), 'L');
    JoinSplit(Stem(name), 'L');
    assert Join(parts[1..], 'L') == parts[1];
    assert Stem(name) == parts[0] + "L" + parts[1];
  }

  /** The example file name T1L2.CSV decodes to side "1", location "2". */
  lemma DecodeExample()
    ensures IsDataFile("T1L2.CSV")
    ensures Decode("T1L2.CSV") == Ok(FileKey("1", "2"))
  {
    assert Join(["T1L2", "CSV"], '.') == "T1L2.CSV";
    SplitJoin(["T1L2", "CSV"], '.');
    DecodeOneSeparator("T1L2.CSV", "T1", "2");
  }
}
