/**
 * The acceptance table of radar_api/tests/test_filter.py, stated as lemmas
 * about the model, with times as seconds since 1970-01-01T00:00:00Z.
 */
module FilterTests {
  import opened Wrappers
  import opened Info
  import opened Filter

  /** 2014-01-01T00:00:00Z */
  const Jan2014: Time := 1388534400
  /** 2013-01-01T00:00:00Z */
  const Jan2013: Time := 1356998400

  /** The file of the table covers 01:00 to 04:00 on 2014-01-01. */
  const FileStart: Time := Jan2014 + 3600
  const FileStop: Time := Jan2014 + 4 * 3600

  /** Queries that cross the file's start, lie inside it, or cross its end accept it. */
  lemma AcceptedQueries()
    ensures IsFileWithinTime(Jan2014, Jan2014 + 18000, FileStart, FileStop)
    ensures IsFileWithinTime(Jan2014 + 7200, Jan2014 + 10800, FileStart, FileStop)
    ensures IsFileWithinTime(Jan2014 + 10800, Jan2014 + 18000, FileStart, FileStop)
  {
  }

  /** Queries that end before the file, lie a year earlier, come after it, or start at its end reject it. */
  lemma RejectedQueries()
    ensures !IsFileWithinTime(Jan2014, Jan2014 + 61, FileStart, FileStop)
    ensures !IsFileWithinTime(Jan2013, Jan2013 + 18000, FileStart, FileStop)
    ensures !IsFileWithinTime(Jan2014, Jan2014 + 3599, FileStart, FileStop)
    ensures !IsFileWithinTime(Jan2014 + 18000, Jan2014 + 21600, FileStart, FileStop)
    ensures !IsFileWithinTime(Jan2014 + 14400, Jan2014 + 18000, FileStart, FileStop)
  {
  }

  /**
   * A parser for three made-up names: "a" starts at 01:00 with no end time,
   * "b" holds 01:00 to 04:00, "c" has no `start_time`, "z" starts at
   * 9999-12-31T23:50:00 with no end time; anything else is unparseable.
   */
  function SampleParser(): Parser {
    (fpath: string, network: string) =>
      if fpath == "a" then Parsed(ParsedInfo(Present(FileStart), Null))
      else if fpath == "b" then Parsed(ParsedInfo(Present(FileStart), Present(FileStop)))
      else if fpath == "c" then Parsed(ParsedInfo(Absent, Absent))
      else if fpath == "z" then Parsed(ParsedInfo(Present(MaxDatetime - 599), Null))
      else Unparseable
  }

  /**
   * Querying 01:10 to 05:00 keeps "a" (its fallback coverage 01:00 to 01:15
   * spans the query start) and both copies of "b", and drops "c". From 01:15
   * on, "a" ends exactly at the query start and is dropped. An unparseable
   * name raises `ValueError`, a fallback end past `datetime.max` raises
   * `OverflowError`, and without a start bound nothing is parsed.
   */
  lemma SampleFilter()
    ensures FilterFiles(SampleParser(), Many(["a", "b", "c", "b"]), "NEXRAD",
                        Some(Jan2014 + 4200), Some(Jan2014 + 18000))
            == Ok(["a", "b", "b"])
    ensures FilterFiles(SampleParser(), Many(["a", "b", "c", "b"]), "NEXRAD",
                        Some(Jan2014 + 4500), Some(Jan2014 + 18000))
            == Ok(["b", "b"])
    ensures FilterFiles(SampleParser(), Many(["a", "x", "b"]), "NEXRAD",
                        Some(Jan2014 + 4200), Some(Jan2014 + 18000))
            == Err(ValueError)
    ensures FilterFiles(SampleParser(), Single("z"), "NEXRAD",
                        Some(Jan2014 + 4200), Some(Jan2014 + 18000))
            == Err(OverflowError)
    ensures FilterFiles(SampleParser(), Many(["a", "x", "b"]), "NEXRAD", None, Some(Jan2014 + 18000))
            == Ok(["a", "x", "b"])
  {
    var parse, stop := SampleParser(), Some(Jan2014 + 18000);
    var abcb: seq<string> := ["a", "b", "c", "b"];
    assert abcb[1..] == ["b", "c", "b"];
    assert ["b", "c", "b"][1..] == ["c", "b"];
    assert ["c", "b"][1..] == ["b"];
    assert ["b"][1..] == [];
    var early, late := Some(Jan2014 + 4200), Some(Jan2014 + 4500);
    assert FilterFile(parse, "a", "NEXRAD", early, stop) == Ok(Some("a"));
    assert FilterFile(parse, "a", "NEXRAD", late, stop) == Ok(None);
    assert FilterFile(parse, "c", "NEXRAD", early, stop) == Ok(None);
    assert FilterFile(parse, "b", "NEXRAD", early, stop) == Ok(Some("b"));
    assert FilterFile(parse, "b", "NEXRAD", late, stop) == Ok(Some("b"));
    assert ["b"] + [] == ["b"] && [] + ["b"] == ["b"];
    assert ["b"] + ["b"] == ["b", "b"] && ["a"] + ["b", "b"] == ["a", "b", "b"] && [] + ["b", "b"] == ["b", "b"];
    assert FilterFile(parse, "c", "NEXRAD", late, stop) == Ok(None);
    assert FilterList(parse, ["b"], "NEXRAD", early, stop) == Ok(["b"]);
    assert FilterList(parse, ["b"], "NEXRAD", late, stop) == Ok(["b"]);
    assert FilterList(parse, ["c", "b"], "NEXRAD", early, stop) == Ok(["b"]);
    assert FilterList(parse, ["c", "b"], "NEXRAD", late, stop) == Ok(["b"]);
    assert FilterList(parse, ["b", "c", "b"], "NEXRAD", early, stop) == Ok(["b", "b"]);
    assert FilterList(parse, ["b", "c", "b"], "NEXRAD", late, stop) == Ok(["b", "b"]);
    assert FilterList(parse, abcb, "NEXRAD", late, stop) == Ok(["b", "b"]);
    var axb: seq<string> := ["a", "x", "b"];
    assert axb[1..] == ["x", "b"];
    FilterListUnbounded(parse, axb, "NEXRAD", None, stop);
  }
}
